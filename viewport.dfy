/** The recenter decision taken after the window has been resized: the
    formation is laid out again only when the centre body has drifted strictly
    farther than 0.4 x min(width, height) from the new window centre. */
module Viewport {
  import opened Geometry
  import opened Layout

  function Min(a: real, b: real): real { if a <= b then a else b }

  /** 0.4 times the shorter side: never negative for a window of non-negative
      size, and never more than 0.4 x either side. */
  function EdgeThreshold(width: real, height: real): (t: real)
    ensures 0.0 <= width && 0.0 <= height ==> 0.0 <= t
    ensures t <= width * 0.4 && t <= height * 0.4
    ensures t == width * 0.4 || t == height * 0.4
  {
    Min(width, height) * 0.4
  }

  /** The decision on the distance that sqrt reports. In a window of
      non-negative size a centre body at distance zero never needs it. */
  predicate NeedsRecenter(distance: real, width: real, height: real)
    ensures NeedsRecenter(distance, width, height) && 0.0 <= width && 0.0 <= height ==> 0.0 < distance
  {
    distance > EdgeThreshold(width, height)
  }

  /** For a window of non-negative size the decision can be made on squared
      distances; in particular a centre exactly at the threshold stays put. */
  lemma RecenterBySquares(centre: Vec, width: real, height: real, distance: real)
    requires 0.0 <= width && 0.0 <= height
    requires IsRoot(distance, DistSq(ScreenCentre(width, height), centre))
    ensures NeedsRecenter(distance, width, height) <==>
              DistSq(ScreenCentre(width, height), centre) > EdgeThreshold(width, height) * EdgeThreshold(width, height)
    ensures distance == EdgeThreshold(width, height) ==> !NeedsRecenter(distance, width, height)
  {
    SquareLess(EdgeThreshold(width, height), distance);
  }
}
