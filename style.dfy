/** The style resolver of the earthquake map: magnitude to circle radius,
    depth to fill colour, and one feature to its complete path style. */
module Style {
  import opened Wrappers

  /** Depth thresholds in km that `markerColor` compares against, ascending.
      The source tests them from the largest down; bucket k below is the set
      of depths that exceed exactly k of them. */
  const Thresholds: seq<real> := [2.0, 5.0, 10.0, 25.0, 50.0, 100.0, 150.0]

  /** The eight fill colours, shallowest bucket first. */
  const Palette: seq<string> :=
    ["#1a9850", "#66bd63", "#a6d96a", "#d9ef8b", "#fee08b", "#fdae61", "#f46d43", "#d73027"]

  ghost predicate StrictlyIncreasing(ts: seq<real>) {
    forall i, j :: 0 <= i < j < |ts| ==> ts[i] < ts[j]
  }

  ghost predicate Distinct(s: seq<string>) {
    forall i, j :: 0 <= i < j < |s| ==> s[i] != s[j]
  }

  /** Reference definition of a depth bucket: how many thresholds the depth
      strictly exceeds. */
  function CountExceeded(ts: seq<real>, depth: real): (n: nat)
    ensures n <= |ts|
  {
    if ts == [] then 0
    else (if depth > ts[0] then 1 else 0) + CountExceeded(ts[1..], depth)
  }

  function Bucket(depth: real): nat {
    CountExceeded(Thresholds, depth)
  }

  /** Bucket k is the half-open interval (Thresholds[k-1], Thresholds[k]],
      unbounded below for k == 0 and above for the last bucket. */
  predicate InBucket(k: nat, depth: real)
    requires k <= |Thresholds|
  {
    (k == 0 || Thresholds[k - 1] < depth) && (k == |Thresholds| || depth <= Thresholds[k])
  }

  /** `markerSize`: the circle radius is four times the magnitude, unclamped. */
  function MarkerSize(magnitude: real): real {
    magnitude * 4.0
  }

  /** `markerColor`: the first threshold, from the largest down, that the depth
      strictly exceeds picks the colour; a depth exceeding none gets the last. */
  function MarkerColor(depth: real): (c: string)
    ensures c == Palette[Bucket(depth)]
  {
    BucketIsInterval(depth);
    assert InBucket(Bucket(depth), depth);
    if depth > 150.0 then "#d73027"
    else if depth > 100.0 then "#f46d43"
    else if depth > 50.0 then "#fdae61"
    else if depth > 25.0 then "#fee08b"
    else if depth > 10.0 then "#d9ef8b"
    else if depth > 5.0 then "#a6d96a"
    else if depth > 2.0 then "#66bd63"
    else "#1a9850"
  }

  lemma {:induction false} CountExceededIsPosition(ts: seq<real>, depth: real, k: nat)
    requires StrictlyIncreasing(ts) && k <= |ts|
    ensures CountExceeded(ts, depth) == k <==>
            (k == 0 || ts[k - 1] < depth) && (k == |ts| || depth <= ts[k])
  {
    if ts != [] {
      var rest := ts[1..];
      assert StrictlyIncreasing(rest);
      if depth > ts[0] {
        if k > 0 {
          CountExceededIsPosition(rest, depth, k - 1);
        }
      } else {
        CountExceededIsPosition(rest, depth, 0);
        if k > 0 {
          assert ts[0] <= ts[k - 1];
        }
      }
    }
  }

  lemma ThresholdsIncreasing()
    ensures StrictlyIncreasing(Thresholds)
  {
  }

  lemma PaletteDistinct()
    ensures |Palette| == |Thresholds| + 1
    ensures Distinct(Palette)
  {
  }

  /** The reference bucket of a depth is the interval that contains it. */
  lemma BucketIsInterval(depth: real)
    ensures Bucket(depth) <= |Thresholds|
    ensures forall k :: 0 <= k <= |Thresholds| ==> (Bucket(depth) == k <==> InBucket(k, depth))
  {
    ThresholdsIncreasing();
    forall k | 0 <= k <= |Thresholds|
      ensures Bucket(depth) == k <==> InBucket(k, depth)
    {
      CountExceededIsPosition(Thresholds, depth, k);
    }
  }

  /** `markerColor` splits the real line into the eight buckets: a depth gets
      colour k exactly when it lies in bucket k. */
  lemma MarkerColorPartition(depth: real, k: nat)
    requires k < |Palette|
    ensures MarkerColor(depth) == Palette[k] <==> InBucket(k, depth)
  {
    BucketIsInterval(depth);
    PaletteDistinct();
  }

  /** Every comparison is strict: a depth equal to a threshold falls into the
      bucket below it, and depths up to 1 km above it get the threshold's own bucket. */
  lemma BoundaryRule(k: nat)
    requires k < |Thresholds|
    ensures MarkerColor(Thresholds[k]) == Palette[k]
    ensures forall d :: Thresholds[k] < d <= Thresholds[k] + 1.0 ==> MarkerColor(d) == Palette[k + 1]
  {
    MarkerColorPartition(Thresholds[k], k);
    forall d | Thresholds[k] < d <= Thresholds[k] + 1.0
      ensures MarkerColor(d) == Palette[k + 1]
    {
      MarkerColorPartition(d, k + 1);
    }
  }

  /** Shallow and negative depths all get the shallowest colour. */
  lemma ShallowDepthsAreGreen(depth: real)
    requires depth <= 2.0
    ensures MarkerColor(depth) == "#1a9850"
  {
  }

  lemma MarkerColorExamples()
    ensures MarkerColor(0.0) == "#1a9850" && MarkerColor(3.0) == "#66bd63"
    ensures MarkerColor(150.0) == "#f46d43" && MarkerColor(151.0) == "#d73027"
  {
  }

  /** `markerSize` is linear, strictly increasing and not clamped at zero. */
  lemma MarkerSizeLinear(a: real, m: real, n: real)
    ensures MarkerSize(a * m) == a * MarkerSize(m)
    ensures MarkerSize(m + n) == MarkerSize(m) + MarkerSize(n)
  {
  }

  lemma MarkerSizeStrictlyIncreasing(m: real, n: real)
    ensures m < n <==> MarkerSize(m) < MarkerSize(n)
  {
  }

  lemma MarkerSizeUnclamped(m: real)
    ensures MarkerSize(m) == 0.0 <==> m == 0.0
    ensures MarkerSize(m) < 0.0 <==> m < 0.0
    ensures MarkerSize(5.0) == 20.0 && MarkerSize(-1.0) == -4.0
  {
  }

  /** The fields of a USGS feed feature that the style and popup read. */
  datatype Properties = Properties(mag: real, place: string, time: int)
  /** A GeoJSON position: longitude, latitude and, optionally, depth in km. */
  datatype Geometry = Point(coordinates: seq<real>)
  datatype Feature = Feature(properties: Properties, geometry: Geometry)

  /** The Leaflet path options `styleInfo` returns. */
  datatype PathStyle = PathStyle(radius: real, fillColor: string, color: string,
                                 weight: real, opacity: real, fillOpacity: real)

  /** `feature.geometry.coordinates[2]`, undefined when the position has no third element. */
  function Depth(f: Feature): Option<real> {
    if |f.geometry.coordinates| > 2 then Some(f.geometry.coordinates[2]) else None
  }

  /** The bucket a feature's depth selects; an undefined depth compares false
      against every threshold and so lands in bucket 0. */
  predicate FeatureInBucket(f: Feature, k: nat)
    requires k <= |Thresholds|
  {
    match Depth(f)
    case Some(d) => InBucket(k, d)
    case None => k == 0
  }

  /** `styleInfo`: radius from the magnitude, fill colour from the depth bucket,
      and fixed stroke colour, weight and opacities. */
  function StyleInfo(f: Feature): (s: PathStyle)
    ensures s.fillColor in Palette
    ensures forall k :: 0 <= k < |Palette| ==> (s.fillColor == Palette[k] <==> FeatureInBucket(f, k))
    ensures s.radius == MarkerSize(f.properties.mag)
    ensures s.color == "black" && s.weight == 1.0 && s.opacity == 1.0 && s.fillOpacity == 0.7
  {
    var fill := match Depth(f)
      case Some(d) => MarkerColor(d)
      case None => "#1a9850";
    PaletteDistinct();
    BucketIsInterval(if Depth(f).Some? then Depth(f).value else 0.0);
    PathStyle(MarkerSize(f.properties.mag), fill, "black", 1.0, 1.0, 0.7)
  }

  /** A larger magnitude always draws a strictly larger circle. */
  lemma StyleRadiusOrdered(f: Feature, g: Feature)
    ensures f.properties.mag < g.properties.mag <==> StyleInfo(f).radius < StyleInfo(g).radius
  {
    MarkerSizeStrictlyIncreasing(f.properties.mag, g.properties.mag);
  }
}
