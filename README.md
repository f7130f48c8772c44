# Orbiting particles: a Dafny model of the force field and scene logic

The application shows a heavy centre body with `nodeCount` coloured nodes
arranged on a circle around it. Each node is tied to the centre by a spring. On
every engine tick a custom force field pulls each node towards the centre. The
pull is stronger outside a band around the orbit radius and weaker inside it.
The field also pushes pairs of nearby nodes apart, five times harder once they
touch. Sliders and two preset buttons change the configuration. Some controls
patch the live bodies and springs in place; others rebuild the scene. After the
window is resized the formation is laid out again, but only if the centre body
has drifted too far from the middle of the window.

The model has these modules:

- `Geometry`: planar vectors over the reals, vector sums, and facts about
  squares.
- `Configuration`: the tunable parameters, the two presets and the derived
  quantities.
- `Forces`: the attraction and repulsion rules as functions, the two passes of
  one tick as functions over a sequence of accumulated forces, and their
  properties.
- `Layout`: the records standing for bodies and springs, and where the scene
  builder puts them.
- `Viewport`: the recenter decision.
- `Simulation`: class `World`, which holds the shared mutable state (the
  configuration, the optional centre body, the node and link sequences) and the
  methods that change it. The tick handler adds forces into an `array<Vec>`
  indexed like the nodes. Its loop bodies are the module-level methods
  `AttractionStep`, `RepulsionStep`, `ApplyAttraction` and `ApplyRepulsionRow`.

`Math.sqrt` is a parameter `sqrt: real -> real`. Lemmas that need a true square
root assume `IsRoot(distance, distSq)`. From there they show that every
distance comparison the code makes can be made on squared distances instead.
`Math.cos` and `Math.sin` are parameters `turnCos` and `turnSin` of the turn
fraction `i / nodeCount`, where `turnCos(t)` stands for `cos(2 * pi * t)`.

For a pair strictly inside the combined radius, the penetration
1 - distance / combinedRadius lies in (0, 1], reaching 1 only at distance zero.

## Model

| member | source | states |
|---|---|---|
| Configuration.Preset | phart002/app.js:17-48 | the two snapshots the preset buttons restore. Both have a positive node count, positive sizes, orbit and repulsion field, non-negative attraction and positive repulsion, and a touch distance strictly inside the combined repulsion radius. Both hide the custom lines and the springs |
| Configuration.OrbitRadiusInner | phart002/app.js:78 | the inner band edge, 0.9 x orbitRadius, lies between 0 and the orbit radius when that is non-negative |
| Configuration.OrbitRadiusOuter | phart002/app.js:79 | the outer band edge, 1.1 x orbitRadius, is at least the orbit radius when that is non-negative |
| Configuration.NodeRepulsionRadius | phart002/app.js:80 | one node's repulsion radius, nodeSize x repulsionDistance, is positive when both factors are |
| Configuration.NodeTouchDistance | phart002/app.js:81 | the touch distance, 2 x nodeSize, exceeds the node size when that is positive |
| Configuration.ForceStrong | phart002/app.js:82 | the touching coefficient, 5 x repulsionForce, is at least the normal coefficient when that is non-negative, and strictly more when it is positive |
| Forces.CombinedRadius | phart002/app.js:92-93 | the combined repulsion radius of a pair is positive when nodeSize and repulsionDistance are; for a positive nodeSize it exceeds the touch distance exactly when repulsionDistance > 1 |
| Forces.InRepulsionRange | phart002/app.js:139-142 | the early-out test on squared distances; under a zero combined radius no pair is in range |
| Forces.RangeSymmetric | phart002/app.js:136-142 | being in range does not depend on the order of the two nodes |
| Forces.AttractionMultiplier | phart002/app.js:108-118 | the multiplier is one of 1.5x, 0.5x or 1x attractionForce, so for a non-negative attractionForce it lies between 0.5x and 1.5x |
| Forces.Attraction | phart002/app.js:120-123 | the attraction on a node lies on the line through the node and the centre, and vanishes when the node sits on the centre |
| Forces.Penetration | phart002/app.js:145-146 | the penetration is 1 at distance zero and, for a positive combined radius, positive exactly when the distance is below that radius |
| Forces.RepulsionMagnitude | phart002/app.js:148-152 | the magnitude is never negative for a non-negative repulsionForce, and it is zero at the edge of the combined radius |
| Forces.PairForce | phart002/app.js:141-157 | a pair gets a force exactly when it is in range and its distance is not zero; that force lies on the line through the two nodes |
| Forces.AttractionPass | phart002/app.js:96-124 | every node's force grows by its own attraction; the length is kept, and a node sitting on the centre keeps its force |
| Forces.RowPass | phart002/app.js:132-163 | row i of the repulsion loop, applied up to inner index j: the length is kept and only node i and nodes i+1 .. j-1 change |
| Forces.RepulsionPass | phart002/app.js:128-164 | the repulsion loop, applied up to outer index i; the length is kept. What each node receives is given by RepulsionOnNode and the total by RepulsionSumsToZero |
| Forces.TickForces | phart002/app.js:96-164 | one whole tick: the attraction pass, then the repulsion pass; the length is kept |
| Layout.ScreenCentre | phart002/app.js:176-177 | the window centre is halfway along each side: its distance from 0 equals its distance from the width and from the height |
| Layout.TurnFraction | phart002/app.js:195 | the turn fraction i / nodeCount multiplied by nodeCount gives back i, and it lies in [0, 1) for every node index |
| Layout.OrbitPoint | phart002/app.js:196-197 | whenever (cos, sin) of the fraction lies on the unit circle, the point is exactly radius from the given centre |
| Layout.CenterBody | phart002/app.js:175-190 | the centre body of a new scene is at rest at the window centre, with the configured size and mass |
| Layout.OrbitNode | phart002/app.js:193-212 | node i of a new scene is at rest, has the configured size and the engine's own mass, and has a hue in [0, 360) |
| Layout.Spring | phart002/app.js:218-230 | link i joins the centre to node i, with the orbit radius as its rest length |
| Layout.Relaid | phart002/app.js:536-543 | a re-laid node keeps every field but position and velocity, is at rest, and for the window centre is exactly where a fresh build would put node i |
| Viewport.EdgeThreshold | phart002/app.js:519 | the threshold is 0.4 x the shorter side: 0.4 x one side, no more than 0.4 x either side, and non-negative for a window of non-negative size |
| Viewport.NeedsRecenter | phart002/app.js:522-527 | the strict distance test; in a window of non-negative size, a centre body at distance zero never needs recentering |
| Forces.MultiplierBySquares | phart002/app.js:110-118 | for a true square root and a non-negative orbit radius, the multiplier is 1.5 x attractionForce beyond 1.1 x orbitRadius and 0.5 x inside 0.9 x orbitRadius; otherwise, both band edges included, it is attractionForce. All three cases are decided on squared distances |
| Forces.AttractionTowardCentre | phart002/app.js:120-123 | the attraction is the node-to-centre vector scaled by the multiplier: its projection on that vector is multiplier x squared distance, which is never negative for a non-negative attractionForce |
| Forces.RepulsionEarlyOut | phart002/app.js:139-142 | a pair receives a force exactly when 0 < squared distance < (2 x nodeSize x repulsionDistance)^2; every other pair leaves the forces unchanged |
| Forces.PenetrationRange | phart002/app.js:143-146 | for a pair in range, with a positive combined radius, penetration = 1 - distance / combinedRadius lies in (0, 1] |
| Forces.TouchEscalation | phart002/app.js:148-152 | the magnitude is repulsionForce x penetration^2, times five exactly when distance < 2 x nodeSize. It is non-negative for repulsionForce >= 0. For repulsionForce > 0 and non-zero penetration, a touching pair gets strictly more than the normal magnitude |
| Forces.TouchBySquares | phart002/app.js:143-150 | for a true square root and a non-negative nodeSize, the touch test distance < 2 x nodeSize has the same outcome as squared distance < (2 x nodeSize)^2 |
| Forces.AddPairTotal | phart002/app.js:159-161 | applying a pair's force changes node i by +F and node j by -F, so the two changes cancel; no other node changes and the total force is unchanged |
| Forces.ApplyPairAt | phart002/app.js:141-162 | after one pair (i, j) is handled, entry i has grown by the pair's force, entry j has shrunk by it and every other entry is unchanged; a pair with no force leaves every entry as it was |
| Forces.RepulsionSeparates | phart002/app.js:154-161 | the force on the first node points from the second node to the first: its projection on posA - posB is distance x magnitude and its squared length is magnitude^2 |
| Forces.RepulsionSumsToZero | phart002/app.js:128-164 | because each pair adds +F to node i and -F to node j, the sum of all forces after a tick equals the sum after the attraction pass alone |
| Forces.RepulsionOnNode | phart002/app.js:127-164 | after the repulsion loop, node k has received +F(k, j) for every j > k and -F(m, k) for every m < k, and nothing else: every unordered pair is visited exactly once |
| Layout.LinksBijective | phart002/app.js:217-231 | when link i joins the centre to node i, different links end at different nodes and every node is the end of some link |
| Layout.OrbitPlacement | phart002/app.js:193-197 | whenever (cos, sin) of its turn fraction lies on the unit circle, node i is placed exactly orbitRadius from the window centre |
| Layout.EvenSpacing | phart002/app.js:193-200 | node i + 1 is placed 1 / nodeCount of a turn further round the orbit than node i, and its hue is 360 / nodeCount higher |
| Viewport.RecenterBySquares | phart002/app.js:516-527 | for a window of non-negative size, recentering happens exactly when the squared distance exceeds (0.4 x min(w, h))^2; a centre body exactly at the threshold stays put |
| Simulation.World.constructor | phart002/app.js:50-56 | the configuration starts as a copy of the first preset, with no centre body, no nodes and no links |
| Simulation.World.BeforeUpdate | phart002/app.js:85-165 | nothing changes when there is no centre body or no node; otherwise the forces become the attraction pass followed by the repulsion pass over every unordered pair |
| Simulation.World.CreateScene | phart002/app.js:168-234 | the old bodies and links are discarded. The new scene has the centre body (at the window centre, with the configured mass and friction, restitution 0.2) and exactly nodeCount nodes, node i on the orbit at fraction i / nodeCount. It has exactly nodeCount links, link i joining the centre to node i (length orbitRadius, stiffness connectionStiffness, damping 0.1, visible showSprings). The class invariant holds afterwards |
| Simulation.World.SetCenterMass | phart002/app.js:272-276 | only centerMass changes in the configuration; an existing centre body gets that mass and nothing else of it changes |
| Simulation.World.SetCenterFriction | phart002/app.js:279-283 | only centerFriction changes in the configuration; an existing centre body gets that air friction and nothing else of it changes |
| Simulation.World.SetCenterSize | phart002/app.js:286-290 | only centerSize changes in the configuration; the scene is then rebuilt as by CreateScene |
| Simulation.World.SetNodeCount | phart002/app.js:293-297 | only nodeCount changes in the configuration; after the rebuild exactly that many nodes and links exist |
| Simulation.World.SetNodeSize | phart002/app.js:300-304 | only nodeSize changes in the configuration; the scene is then rebuilt as by CreateScene |
| Simulation.World.SetOrbitRadius | phart002/app.js:307-315 | orbitRadius changes in the configuration; every link gets that rest length; no other link field changes and the number of links is kept |
| Simulation.World.SetAttractionForce | phart002/app.js:318-321 | only attractionForce changes; the class invariant is kept |
| Simulation.World.SetRepulsionForce | phart002/app.js:324-326 | only repulsionForce changes; the class invariant is kept |
| Simulation.World.SetRepulsionDistance | phart002/app.js:337-339 | only repulsionDistance changes; the class invariant is kept |
| Simulation.World.SetNodeFriction | phart002/app.js:350-358 | nodeFriction changes in the configuration; every node gets that air friction; no other node field changes and the number of nodes is kept |
| Simulation.World.SetConnectionStiffness | phart002/app.js:361-369 | connectionStiffness changes in the configuration; every link gets that stiffness; no other link field changes and the number of links is kept |
| Simulation.World.ApplyPreset | phart002/app.js:377-401 | the configuration becomes exactly the preset, whatever it was before, so applying a preset twice gives the same configuration as applying it once; the scene is then rebuilt as by CreateScene |
| Simulation.World.SetShowConnections | phart002/app.js:429-431 | only showConnections changes; the class invariant is kept |
| Simulation.World.SetShowSprings | phart002/app.js:434-441 | showSprings changes in the configuration; every link gets that visibility; no other link field changes and the number of links is kept |
| Simulation.World.HandleResize | phart002/app.js:515-544 | when the centre body is strictly farther than 0.4 x min(w, h) from the new window centre, it moves there and every node goes back to its orbit position around it, all with zero velocity; otherwise nothing changes |
| Simulation.World.ResetFormation | phart002/app.js:528-543 | every node is moved to its orbit position around the given centre, at fraction i / nodeCount, with zero velocity; no other node field changes and the number of nodes is kept |
| Simulation.AttractionStep | phart002/app.js:98-123 | the force computed for one node is the attraction for the distance that sqrt returns for its squared distance from the centre |
| Simulation.RepulsionStep | phart002/app.js:136-157 | the force computed for one pair is the pair force of the model, or none for a pair the early-out skips |
| Simulation.ApplyAttraction | phart002/app.js:96-124 | after the attraction loop, every node's force has grown by exactly its own attraction, once |
| Simulation.ApplyRepulsionRow | phart002/app.js:128-164 | one row i of the repulsion loop applies the pairs (i, i+1) .. (i, n-1) in order, +F on node i and -F on node j |

## Left out

- The Matter.js engine, renderer and runner are not modelled: body integration, collisions, spring dynamics, `Composite.add`/`clear` and the mouse constraint. Bodies and springs are plain records in sequences. `Body.applyForce` becomes an addition into a force array indexed like the nodes. `Body.setMass` becomes replacing the recorded mass; the inertia the engine recomputes is not modelled.
- The `afterRender` canvas overlay only draws, so it is not modelled.
- DOM plumbing is not modelled: reading slider values, label updates (`updateUIValues`), the control-panel toggle and the debug checkbox. The handlers take the already parsed value. `parseFloat`/`parseInt` returning NaN is not modelled.
- SetRepulsionForce: does not model the small random impulse given to every node after the change, because it comes from `Math.random`; only the configuration change is modelled.
- SetRepulsionDistance: does not model the same random impulse, for the same reason.
- The resize debounce timer is not modelled, nor the update of the render size and pixel ratio. HandleResize is the body of the debounced callback.
- Floating-point rounding is not modelled: all quantities are reals. `Math.sqrt`, `Math.cos` and `Math.sin` are parameters. The HSL fill string is reduced to its hue.
- Coincident nodes: a pair at distance zero is skipped, and the model gives it no force. The source does not guard this case: it divides by zero and the resulting non-finite force reaches both nodes.
- nodeCount is a natural number; a negative slider value is not modelled.
- The reset button's handler and the initial scene build are CreateScene; startup is the constructor followed by CreateScene.
