/**
 The quadtree sweep of backend/app/spatial/quadtree.py: what the pruned summary says
 about everything the sweep has sampled.
 Spread is compared as a variance against the squared tolerance.
 */
module Quadtree {
  import opened Wrappers

  datatype BBox = BBox(minLon: real, minLat: real, maxLon: real, maxLat: real)
  {
    function Width(): real { maxLon - minLon }

    function Height(): real { maxLat - minLat }

    function CentreLon(): real { (minLon + maxLon) / 2.0 }

    function CentreLat(): real { (minLat + maxLat) / 2.0 }
  }

  /** NW, NE, SW, SE. */
  function Quadrants(b: BBox): seq<BBox> {
    var cx, cy := b.CentreLon(), b.CentreLat();
    [BBox(b.minLon, cy, cx, b.maxLat), BBox(cx, cy, b.maxLon, b.maxLat),
     BBox(b.minLon, b.minLat, cx, cy), BBox(cx, b.minLat, b.maxLon, cy)]
  }

  datatype Sample = Sample(lon: real, lat: real, risk: real)

  datatype Settings = Settings(sampler: (real, real) -> Option<real>, maxDepth: int, minDepth: int, leafSize: real,
                               tolerance: real, escalateAbove: real, samplesPerRegion: int)

  datatype Region = Region(bbox: BBox, depth: int, maxRisk: real, meanRisk: real, cellCount: nat,
                           hotspot: Option<(real, real)>, children: seq<Region>, pruned: bool)

  /** Python's `pts[:n]`: a negative `n` drops from the end. */
  function Slice<T>(xs: seq<T>, n: int): seq<T> {
    if n >= |xs| then xs else if n >= 0 then xs[..n] else if |xs| + n >= 0 then xs[..|xs| + n] else []
  }

  function Probes(b: BBox): seq<(real, real)> {
    [(b.minLon, b.minLat), (b.maxLon, b.minLat), (b.minLon, b.maxLat), (b.maxLon, b.maxLat),
     (b.CentreLon(), b.CentreLat())]
  }

  function Read(sampler: (real, real) -> Option<real>, pts: seq<(real, real)>): seq<Sample> {
    if pts == [] then []
    else
      var last := pts[|pts| - 1];
      Read(sampler, pts[..|pts| - 1])
      + match sampler(last.0, last.1) case Some(v) => [Sample(last.0, last.1, v)] case None => []
  }

  function Samples(s: Settings, b: BBox): seq<Sample> {
    Read(s.sampler, Slice(Probes(b), s.samplesPerRegion))
  }

  function Sum(xs: seq<Sample>): real {
    if xs == [] then 0.0 else Sum(xs[..|xs| - 1]) + xs[|xs| - 1].risk
  }

  /** Python's `max` by risk: the first of the greatest. */
  function Worst(xs: seq<Sample>): (w: Sample)
    requires xs != []
    ensures w in xs && forall x :: x in xs ==> x.risk <= w.risk
  {
    if |xs| == 1 then xs[0]
    else
      var w := Worst(xs[..|xs| - 1]);
      if w.risk < xs[|xs| - 1].risk then xs[|xs| - 1] else w
  }

  function SquaredSpread(xs: seq<Sample>, mean: real): real {
    if xs == [] then 0.0
    else
      var d := xs[|xs| - 1].risk - mean;
      SquaredSpread(xs[..|xs| - 1], mean) + d * d
  }

  /** Population standard deviation at most the tolerance. */
  predicate Uniform(xs: seq<Sample>, tolerance: real)
    requires xs != []
  {
    0.0 <= tolerance && SquaredSpread(xs, Sum(xs) / |xs| as real) / |xs| as real <= tolerance * tolerance
  }

  predicate Small(s: Settings, b: BBox) {
    b.Width() <= s.leafSize && b.Height() <= s.leafSize
  }

  predicate IsBaseCase(s: Settings, b: BBox, depth: int, xs: seq<Sample>) {
    if depth >= s.maxDepth then true
    else if Small(s, b) then true
    else if xs == [] then true
    else if depth < s.minDepth then false
    else if s.escalateAbove <= Worst(xs).risk then false
    else if |xs| < 2 then false
    else Uniform(xs, s.tolerance)
  }

  function LeafOf(b: BBox, depth: int, xs: seq<Sample>, pruned: bool): Region {
    if xs == [] then Region(b, depth, -1.0, -1.0, 0, None, [], pruned)
    else
      var w := Worst(xs);
      Region(b, depth, w.risk, Sum(xs) / |xs| as real, |xs|, Some((w.lon, w.lat)), [], pruned)
  }

  // ----- combining -----------------------------------------------------------------------

  function Scored(rs: seq<Region>): seq<Region> {
    if rs == [] then []
    else Scored(rs[..|rs| - 1]) + if rs[|rs| - 1].cellCount > 0 then [rs[|rs| - 1]] else []
  }

  function TotalCount(rs: seq<Region>): nat {
    if rs == [] then 0 else TotalCount(rs[..|rs| - 1]) + rs[|rs| - 1].cellCount
  }

  function Weight(r: Region): real {
    r.meanRisk * r.cellCount as real
  }

  function WeightedSum(rs: seq<Region>): real {
    if rs == [] then 0.0 else WeightedSum(rs[..|rs| - 1]) + Weight(rs[|rs| - 1])
  }

  function WorstRegion(rs: seq<Region>): (w: Region)
    requires rs != []
    ensures w in rs && forall r :: r in rs ==> r.maxRisk <= w.maxRisk
  {
    if |rs| == 1 then rs[0]
    else
      var w := WorstRegion(rs[..|rs| - 1]);
      if w.maxRisk < rs[|rs| - 1].maxRisk then rs[|rs| - 1] else w
  }

  lemma {:induction false} ScoredMembers(rs: seq<Region>)
    ensures forall r :: r in Scored(rs) <==> r in rs && r.cellCount > 0
  {
    if rs != [] {
      ScoredMembers(rs[..|rs| - 1]);
      assert rs == rs[..|rs| - 1] + [rs[|rs| - 1]];
    }
  }

  lemma EmptyWeighsNothing(r: Region)
    requires r.cellCount == 0
    ensures Weight(r) == 0.0
  {
  }

  /** Regions without samples weigh nothing. */
  lemma {:induction false} ScoredTotals(rs: seq<Region>)
    ensures TotalCount(Scored(rs)) == TotalCount(rs) && WeightedSum(Scored(rs)) == WeightedSum(rs)
    ensures Scored(rs) == [] <==> TotalCount(rs) == 0
  {
    hide Weight;
    if rs != [] {
      var init, last := rs[..|rs| - 1], rs[|rs| - 1];
      ScoredTotals(init);
      assert (Scored(init) + [last])[..|Scored(init)|] == Scored(init);
      if last.cellCount == 0 {
        EmptyWeighsNothing(last);
        assert Scored(rs) == Scored(init);
      }
    }
  }

  function Combine(b: BBox, depth: int, children: seq<Region>): Region {
    var scored := Scored(children);
    if scored == [] then Region(b, depth, -1.0, -1.0, 0, None, children, false)
    else
      ScoredTotals(children);
      var total := TotalCount(scored);
      var w := WorstRegion(scored);
      Region(b, depth, w.maxRisk, WeightedSum(scored) / total as real, total, w.hotspot, children, false)
  }

  // ----- the sweep -----------------------------------------------------------------------

  predicate Stops(s: Settings, b: BBox, depth: int) {
    IsBaseCase(s, b, depth, Samples(s, b))
  }

  function Quadrant(b: BBox, i: nat): BBox
    requires i < 4
  {
    Quadrants(b)[i]
  }

  function Analyse(s: Settings, b: BBox, depth: int): Region
    decreases s.maxDepth - depth
  {
    var xs := Samples(s, b);
    if Stops(s, b, depth) then LeafOf(b, depth, xs, xs != [] && depth < s.maxDepth)
    else Combine(b, depth, seq(4, i requires 0 <= i < 4 => Analyse(s, Quadrant(b, i), depth + 1)))
  }

  /** Everything sampled at the leaves of the sweep. */
  ghost function LeafSamples(s: Settings, b: BBox, depth: int): seq<Sample>
    decreases s.maxDepth - depth
  {
    if Stops(s, b, depth) then Samples(s, b) else
      LeafSamples(s, Quadrant(b, 0), depth + 1) + LeafSamples(s, Quadrant(b, 1), depth + 1)
      + LeafSamples(s, Quadrant(b, 2), depth + 1) + LeafSamples(s, Quadrant(b, 3), depth + 1)
  }

  /** Everything sampled anywhere in the sweep. */
  ghost function AllSamples(s: Settings, b: BBox, depth: int): seq<Sample>
    decreases s.maxDepth - depth
  {
    if Stops(s, b, depth) then Samples(s, b) else
      Samples(s, b)
      + AllSamples(s, Quadrant(b, 0), depth + 1) + AllSamples(s, Quadrant(b, 1), depth + 1)
      + AllSamples(s, Quadrant(b, 2), depth + 1) + AllSamples(s, Quadrant(b, 3), depth + 1)
  }

  // ----- a result sums up a list of samples ------------------------------------------------------

  ghost predicate Totals(r: Region, xs: seq<Sample>) {
    r.cellCount == |xs| && Weight(r) == Sum(xs)
  }

  ghost predicate Peaks(r: Region, xs: seq<Sample>) {
    && (forall x :: x in xs ==> x.risk <= r.maxRisk)
    && (xs != [] ==> exists x :: x in xs && x.risk == r.maxRisk && r.hotspot == Some((x.lon, x.lat)))
    && (xs == [] ==> r.maxRisk == -1.0 && r.hotspot == None)
  }

  /** Maximum, hotspot, count and mean of `r` are those of the samples `xs`. */
  ghost predicate SumsUp(r: Region, xs: seq<Sample>) {
    Totals(r, xs) && Peaks(r, xs)
  }

  lemma DivMul(a: real, n: nat)
    requires n > 0
    ensures a / n as real * n as real == a
  {
  }

  lemma LeafSumsUp(b: BBox, depth: int, xs: seq<Sample>, pruned: bool)
    ensures SumsUp(LeafOf(b, depth, xs, pruned), xs)
  {
    if xs != [] {
      DivMul(Sum(xs), |xs|);
    }
  }

  lemma {:induction false} SumConcat(xs: seq<Sample>, ys: seq<Sample>)
    ensures Sum(xs + ys) == Sum(xs) + Sum(ys)
    decreases |ys|
  {
    if ys == [] {
      assert xs + ys == xs;
    } else {
      assert (xs + ys)[..|xs + ys| - 1] == xs + ys[..|ys| - 1];
      SumConcat(xs, ys[..|ys| - 1]);
    }
  }

  function Flat(xss: seq<seq<Sample>>): seq<Sample> {
    if xss == [] then [] else Flat(xss[..|xss| - 1]) + xss[|xss| - 1]
  }

  lemma {:induction false} FlatMembers(xss: seq<seq<Sample>>)
    ensures forall x :: x in Flat(xss) <==> exists i :: 0 <= i < |xss| && x in xss[i]
  {
    if xss != [] {
      var n := |xss| - 1;
      FlatMembers(xss[..n]);
      forall x | x in Flat(xss) ensures exists i :: 0 <= i < |xss| && x in xss[i] {
        if x in Flat(xss[..n]) {
          var i :| 0 <= i < n && x in xss[..n][i];
          assert x in xss[i];
        } else {
          assert x in xss[n];
        }
      }
      forall x, i | 0 <= i < |xss| && x in xss[i] ensures x in Flat(xss) {
        if i < n {
          assert x in xss[..n][i];
        }
      }
    }
  }

  /** Counts and weighted means of children add up to those of all their samples. */
  lemma {:induction false} ChildrenTotals(rs: seq<Region>, xss: seq<seq<Sample>>)
    requires |rs| == |xss| && forall i :: 0 <= i < |rs| ==> Totals(rs[i], xss[i])
    ensures TotalCount(rs) == |Flat(xss)| && WeightedSum(rs) == Sum(Flat(xss))
  {
    if rs != [] {
      hide Weight;
      var n := |rs| - 1;
      ChildrenTotals(rs[..n], xss[..n]);
      SumConcat(Flat(xss[..n]), xss[n]);
      assert Totals(rs[n], xss[n]);
    }
  }

  lemma CombineWeighs(b: BBox, depth: int, rs: seq<Region>)
    ensures Combine(b, depth, rs).cellCount == TotalCount(rs)
    ensures Weight(Combine(b, depth, rs)) == WeightedSum(rs)
  {
    hide Weight;
    ScoredTotals(rs);
    if Scored(rs) == [] {
      EmptyWeighsNothing(Combine(b, depth, rs));
    } else {
      MeanWeighs(Combine(b, depth, rs), WeightedSum(rs));
    }
  }

  lemma MeanWeighs(r: Region, sum: real)
    requires r.cellCount > 0 && r.meanRisk == sum / r.cellCount as real
    ensures Weight(r) == sum
  {
    DivMul(sum, r.cellCount);
  }

  /** A sample of any child belongs to a child that counts. */
  lemma SampleIsScored(rs: seq<Region>, xss: seq<seq<Sample>>, x: Sample) returns (i: nat)
    requires |rs| == |xss| && forall i :: 0 <= i < |rs| ==> rs[i].cellCount == |xss[i]|
    requires x in Flat(xss)
    ensures i < |rs| && x in xss[i] && rs[i] in Scored(rs)
  {
    FlatMembers(xss);
    ScoredMembers(rs);
    i :| 0 <= i < |xss| && x in xss[i];
  }

  lemma CombinePeaks(b: BBox, depth: int, rs: seq<Region>, xss: seq<seq<Sample>>)
    requires |rs| == |xss| && forall i :: 0 <= i < |rs| ==> Peaks(rs[i], xss[i])
    requires TotalCount(rs) == |Flat(xss)| && forall i :: 0 <= i < |rs| ==> rs[i].cellCount == |xss[i]|
    ensures Peaks(Combine(b, depth, rs), Flat(xss))
  {
    hide Weight, WeightedSum, TotalCount, Flat, Scored;
    ScoredTotals(rs);
    var xs, r := Flat(xss), Combine(b, depth, rs);
    forall x | x in xs ensures x.risk <= r.maxRisk {
      var i := SampleIsScored(rs, xss, x);
      assert Peaks(rs[i], xss[i]);
    }
    if Scored(rs) != [] {
      var w := WorstRegion(Scored(rs));
      var x := WorstSample(rs, xss, w);
      assert x in xs;
    }
  }

  lemma WorstSample(rs: seq<Region>, xss: seq<seq<Sample>>, w: Region) returns (x: Sample)
    requires |rs| == |xss| && forall i :: 0 <= i < |rs| ==> Peaks(rs[i], xss[i]) && rs[i].cellCount == |xss[i]|
    requires w in Scored(rs)
    ensures x in Flat(xss) && x.risk == w.maxRisk && w.hotspot == Some((x.lon, x.lat))
  {
    ScoredMembers(rs);
    FlatMembers(xss);
    var i :| 0 <= i < |rs| && rs[i] == w;
    assert Peaks(rs[i], xss[i]) && xss[i] != [];
    x :| x in xss[i] && x.risk == w.maxRisk && w.hotspot == Some((x.lon, x.lat));
  }

  lemma CombineSumsUp(b: BBox, depth: int, rs: seq<Region>, xss: seq<seq<Sample>>)
    requires |rs| == |xss| && forall i :: 0 <= i < |rs| ==> SumsUp(rs[i], xss[i])
    ensures SumsUp(Combine(b, depth, rs), Flat(xss))
  {
    hide Peaks, Weight, Combine;
    forall i | 0 <= i < |rs| ensures Totals(rs[i], xss[i]) && Peaks(rs[i], xss[i]) {
      assert SumsUp(rs[i], xss[i]);
    }
    ChildrenTotals(rs, xss);
    CombineWeighs(b, depth, rs);
    CombinePeaks(b, depth, rs, xss);
  }

  /** The result of a sweep sums up exactly its leaf samples. */
  lemma {:induction false} AnalyseSumsUpLeaves(s: Settings, b: BBox, depth: int)
    ensures SumsUp(Analyse(s, b, depth), LeafSamples(s, b, depth))
    decreases s.maxDepth - depth
  {
    hide SumsUp, Combine, Samples;
    if Stops(s, b, depth) {
      LeafSumsUp(b, depth, Samples(s, b), Samples(s, b) != [] && depth < s.maxDepth);
    } else {
      var rs := seq(4, i requires 0 <= i < 4 => Analyse(s, Quadrant(b, i), depth + 1));
      var xss := seq(4, i requires 0 <= i < 4 => LeafSamples(s, Quadrant(b, i), depth + 1));
      forall i | 0 <= i < 4 ensures SumsUp(rs[i], xss[i]) {
        AnalyseSumsUpLeaves(s, Quadrant(b, i), depth + 1);
      }
      CombineSumsUp(b, depth, rs, xss);
      FlatFour(xss);
    }
  }

  lemma FlatFour(xss: seq<seq<Sample>>)
    requires |xss| == 4
    ensures Flat(xss) == xss[0] + xss[1] + xss[2] + xss[3]
  {
    assert xss[..3][..2][..1][..0] == [];
    assert Flat(xss[..3][..2][..1]) == [] + xss[0];
    assert Flat(xss[..3][..2]) == Flat(xss[..3][..2][..1]) + xss[1];
    assert Flat(xss[..3]) == Flat(xss[..3][..2]) + xss[2];
  }

  // ----- nothing the sweep has seen is lost on the way up ----------------------------------------

  lemma {:induction false} ReadMembers(sampler: (real, real) -> Option<real>, pts: seq<(real, real)>, x: Sample)
    ensures x in Read(sampler, pts) <==> (x.lon, x.lat) in pts && sampler(x.lon, x.lat) == Some(x.risk)
  {
    if pts != [] {
      ReadMembers(sampler, pts[..|pts| - 1], x);
      assert pts == pts[..|pts| - 1] + [pts[|pts| - 1]];
    }
  }

  /** The quadrant that probes again what its parent probed: corners stay corners, the centre becomes one. */
  function Heir(i: nat): nat {
    match i
    case 0 => 2
    case 1 => 3
    case 2 => 0
    case _ => 1
  }

  lemma ProbeReappears(b: BBox, n: int, p: (real, real)) returns (j: nat)
    requires p in Slice(Probes(b), n)
    ensures j < 4 && p in Slice(Probes(Quadrant(b, j)), n)
  {
    var pts := Slice(Probes(b), n);
    var i :| 0 <= i < |pts| && pts[i] == p;
    assert p == Probes(b)[i];
    j := Heir(i);
    var at := if i == 4 then 0 else i;
    var heirs := Slice(Probes(Quadrant(b, j)), n);
    assert |heirs| == |pts|;
    assert heirs[at] == Probes(Quadrant(b, j))[at] == p;
  }

  /** Some quadrant reads again whatever its parent has read. */
  lemma SampleIsReadAgain(s: Settings, b: BBox, x: Sample) returns (j: nat)
    requires x in Samples(s, b)
    ensures j < 4 && x in Samples(s, Quadrant(b, j))
  {
    ReadMembers(s.sampler, Slice(Probes(b), s.samplesPerRegion), x);
    hide Probes, Slice, Read, Quadrant;
    j := ProbeReappears(b, s.samplesPerRegion, (x.lon, x.lat));
    ReadMembers(s.sampler, Slice(Probes(Quadrant(b, j)), s.samplesPerRegion), x);
  }

  lemma {:induction false} SampleReachesLeaf(s: Settings, b: BBox, depth: int, x: Sample)
    requires x in Samples(s, b)
    ensures x in LeafSamples(s, b, depth)
    decreases s.maxDepth - depth
  {
    hide Samples, IsBaseCase, Quadrant;
    if !Stops(s, b, depth) {
      if depth >= s.maxDepth {
        StopsAtMaxDepth(s, b, depth);
      }
      var j := SampleIsReadAgain(s, b, x);
      SampleReachesLeaf(s, Quadrant(b, j), depth + 1, x);
    }
  }

  lemma {:induction false} AllAreAtLeaves(s: Settings, b: BBox, depth: int, x: Sample)
    ensures x in AllSamples(s, b, depth) <==> x in LeafSamples(s, b, depth)
    decreases s.maxDepth - depth
  {
    hide Samples, IsBaseCase, Quadrant;
    if !Stops(s, b, depth) {
      if depth >= s.maxDepth {
        StopsAtMaxDepth(s, b, depth);
      }
      if x in Samples(s, b) {
        SampleReachesLeaf(s, b, depth, x);
      }
      AllAreAtLeaves(s, Quadrant(b, 0), depth + 1, x);
      AllAreAtLeaves(s, Quadrant(b, 1), depth + 1, x);
      AllAreAtLeaves(s, Quadrant(b, 2), depth + 1, x);
      AllAreAtLeaves(s, Quadrant(b, 3), depth + 1, x);
    }
  }

  lemma StopsAtMaxDepth(s: Settings, b: BBox, depth: int)
    requires depth >= s.maxDepth
    ensures Stops(s, b, depth)
  {
  }

  /**
   Although merging ignores a node's own samples, the root reports the maximum over
   everything sampled anywhere, and a place that attains it.
   */
  lemma RootSeesEverything(s: Settings, b: BBox)
    ensures Peaks(Analyse(s, b, 0), AllSamples(s, b, 0))
    ensures Totals(Analyse(s, b, 0), LeafSamples(s, b, 0))
  {
    var all, leaves := AllSamples(s, b, 0), LeafSamples(s, b, 0);
    AnalyseSumsUpLeaves(s, b, 0);
    forall x ensures x in all <==> x in leaves {
      AllAreAtLeaves(s, b, 0, x);
    }
    assert all != [] ==> all[0] in leaves;
    assert leaves != [] ==> leaves[0] in all;
  }

  // ----- the leaves tile the box --------------------------------------------------------------

  function Leaves(r: Region): seq<Region>
    decreases r, 0
  {
    if r.children == [] then [r] else LeavesAll(r.children)
  }

  function LeavesAll(rs: seq<Region>): seq<Region>
    decreases rs, 1
  {
    if rs == [] then [] else LeavesAll(rs[..|rs| - 1]) + Leaves(rs[|rs| - 1])
  }

  /** Half-open containment: a point on an inner border belongs to one side only. */
  predicate Within(b: BBox, lon: real, lat: real) {
    b.minLon <= lon < b.maxLon && b.minLat <= lat < b.maxLat
  }

  function Covering(rs: seq<Region>, lon: real, lat: real): nat {
    if rs == [] then 0
    else Covering(rs[..|rs| - 1], lon, lat) + if Within(rs[|rs| - 1].bbox, lon, lat) then 1 else 0
  }

  lemma {:induction false} CoveringConcat(rs: seq<Region>, ts: seq<Region>, lon: real, lat: real)
    ensures Covering(rs + ts, lon, lat) == Covering(rs, lon, lat) + Covering(ts, lon, lat)
    decreases |ts|
  {
    if ts == [] {
      assert rs + ts == rs;
    } else {
      assert (rs + ts)[..|rs + ts| - 1] == rs + ts[..|ts| - 1];
      CoveringConcat(rs, ts[..|ts| - 1], lon, lat);
    }
  }

  function Kids(s: Settings, b: BBox, depth: int): seq<Region>
    requires depth < s.maxDepth
  {
    seq(4, i requires 0 <= i < 4 => Analyse(s, Quadrant(b, i), depth + 1))
  }

  lemma LeavesOfFour(rs: seq<Region>)
    requires |rs| == 4
    ensures LeavesAll(rs) == Leaves(rs[0]) + Leaves(rs[1]) + Leaves(rs[2]) + Leaves(rs[3])
  {
    hide Leaves;
    assert rs[..3][..2][..1][..0] == [];
    assert LeavesAll(rs[..3][..2][..1]) == [] + Leaves(rs[0]);
    assert LeavesAll(rs[..3][..2]) == LeavesAll(rs[..3][..2][..1]) + Leaves(rs[1]);
    assert LeavesAll(rs[..3]) == LeavesAll(rs[..3][..2]) + Leaves(rs[2]);
  }

  lemma AnalyseShape(s: Settings, b: BBox, depth: int)
    ensures Analyse(s, b, depth).bbox == b && Analyse(s, b, depth).depth == depth
    ensures Stops(s, b, depth) ==> Leaves(Analyse(s, b, depth)) == [Analyse(s, b, depth)]
    ensures !Stops(s, b, depth) ==>
              depth < s.maxDepth && Analyse(s, b, depth) == Combine(b, depth, Kids(s, b, depth))
              && Leaves(Analyse(s, b, depth)) == LeavesAll(Kids(s, b, depth))
  {
    hide Samples, Scored, WeightedSum, TotalCount, Worst, WorstRegion, Sum, Quadrant, Uniform;
    if !Stops(s, b, depth) {
      assert Analyse(s, b, depth).children == Kids(s, b, depth);
    }
  }

  /** Every point of the box lies in exactly one leaf, and no leaf reaches outside it. */
  lemma {:induction false} LeavesTile(s: Settings, b: BBox, depth: int, lon: real, lat: real)
    ensures Covering(Leaves(Analyse(s, b, depth)), lon, lat) == if Within(b, lon, lat) then 1 else 0
    decreases s.maxDepth - depth
  {
    hide Analyse, Leaves, LeavesAll, Stops;
    AnalyseShape(s, b, depth);
    if !Stops(s, b, depth) {
      var rs := Kids(s, b, depth);
      LeavesOfFour(rs);
      forall i | 0 <= i < 4
        ensures Covering(Leaves(rs[i]), lon, lat) == if Within(Quadrant(b, i), lon, lat) then 1 else 0
      {
        LeavesTile(s, Quadrant(b, i), depth + 1, lon, lat);
      }
      CoveringConcat(Leaves(rs[0]), Leaves(rs[1]), lon, lat);
      CoveringConcat(Leaves(rs[0]) + Leaves(rs[1]), Leaves(rs[2]), lon, lat);
      CoveringConcat(Leaves(rs[0]) + Leaves(rs[1]) + Leaves(rs[2]), Leaves(rs[3]), lon, lat);
      QuadrantsPartition(b, lon, lat);
    }
  }

  lemma QuadrantsPartition(b: BBox, lon: real, lat: real)
    ensures (if Within(Quadrant(b, 0), lon, lat) then 1 else 0) + (if Within(Quadrant(b, 1), lon, lat) then 1 else 0)
          + (if Within(Quadrant(b, 2), lon, lat) then 1 else 0) + (if Within(Quadrant(b, 3), lon, lat) then 1 else 0)
         == if Within(b, lon, lat) then 1 else 0
  {
  }

  // ----- counting ----------------------------------------------------------------------------

  function Visited(s: Settings, b: BBox, depth: int): (n: nat)
    ensures n > 0
    decreases s.maxDepth - depth
  {
    if Stops(s, b, depth) then 1 else
      1 + Visited(s, Quadrant(b, 0), depth + 1) + Visited(s, Quadrant(b, 1), depth + 1)
      + Visited(s, Quadrant(b, 2), depth + 1) + Visited(s, Quadrant(b, 3), depth + 1)
  }

  function Subdivided(s: Settings, b: BBox, depth: int): nat
    decreases s.maxDepth - depth
  {
    if Stops(s, b, depth) then 0 else
      1 + Subdivided(s, Quadrant(b, 0), depth + 1) + Subdivided(s, Quadrant(b, 1), depth + 1)
      + Subdivided(s, Quadrant(b, 2), depth + 1) + Subdivided(s, Quadrant(b, 3), depth + 1)
  }

  lemma {:induction false} VisitCounts(s: Settings, b: BBox, depth: int)
    ensures Visited(s, b, depth) == 4 * Subdivided(s, b, depth) + 1
    ensures Visited(s, b, depth) == Subdivided(s, b, depth) + |Leaves(Analyse(s, b, depth))|
    decreases s.maxDepth - depth
  {
    hide Analyse, Leaves, LeavesAll, Stops;
    AnalyseShape(s, b, depth);
    if !Stops(s, b, depth) {
      var rs := Kids(s, b, depth);
      LeavesOfFour(rs);
      VisitCounts(s, Quadrant(b, 0), depth + 1);
      VisitCounts(s, Quadrant(b, 1), depth + 1);
      VisitCounts(s, Quadrant(b, 2), depth + 1);
      VisitCounts(s, Quadrant(b, 3), depth + 1);
    }
  }

  // ----- hot areas -----------------------------------------------------------------------------

  lemma HotStopIsFine(s: Settings, b: BBox, depth: int)
    requires Stops(s, b, depth) && Analyse(s, b, depth).cellCount > 0 && s.escalateAbove <= Analyse(s, b, depth).maxRisk
    ensures s.maxDepth <= depth || Small(s, b)
  {
    hide Samples, Uniform;
  }

  /** A leaf with a sample at or above the escalation threshold is as small as the sweep goes. */
  lemma {:induction false} HotLeavesAreFine(s: Settings, b: BBox, depth: int, leaf: Region)
    requires leaf in Leaves(Analyse(s, b, depth)) && leaf.cellCount > 0 && s.escalateAbove <= leaf.maxRisk
    ensures s.maxDepth <= leaf.depth || Small(s, leaf.bbox)
    decreases s.maxDepth - depth
  {
    hide Analyse, Leaves, LeavesAll, Stops, Small;
    AnalyseShape(s, b, depth);
    if Stops(s, b, depth) {
      HotStopIsFine(s, b, depth);
    } else {
      LeavesOfFour(Kids(s, b, depth));
      var i :| 0 <= i < 4 && leaf in Leaves(Kids(s, b, depth)[i]);
      HotLeavesAreFine(s, Quadrant(b, i), depth + 1, leaf);
    }
  }

  // ----- the class -------------------------------------------------------------------------------

  /** Leaves that still had samples and depth to spare. */
  function Pruned(s: Settings, b: BBox, depth: int): nat
    decreases s.maxDepth - depth
  {
    if Stops(s, b, depth) then (if Samples(s, b) != [] && depth < s.maxDepth then 1 else 0) else
      Pruned(s, Quadrant(b, 0), depth + 1) + Pruned(s, Quadrant(b, 1), depth + 1)
      + Pruned(s, Quadrant(b, 2), depth + 1) + Pruned(s, Quadrant(b, 3), depth + 1)
  }

  /** How far down the sweep goes. */
  function Deepest(s: Settings, b: BBox, depth: int): (d: int)
    ensures depth <= d
    decreases s.maxDepth - depth
  {
    if Stops(s, b, depth) then depth else
      Larger(Larger(Deepest(s, Quadrant(b, 0), depth + 1), Deepest(s, Quadrant(b, 1), depth + 1)),
             Larger(Deepest(s, Quadrant(b, 2), depth + 1), Deepest(s, Quadrant(b, 3), depth + 1)))
  }

  ghost predicate ReachDown(leaves: seq<Region>, depth: int) {
    (forall leaf :: leaf in leaves ==> leaf.depth <= depth) && exists leaf :: leaf in leaves && leaf.depth == depth
  }

  lemma ReachJoins(xs: seq<Region>, ys: seq<Region>, d: int, e: int)
    requires ReachDown(xs, d) && ReachDown(ys, e)
    ensures ReachDown(xs + ys, Larger(d, e))
  {
    var x :| x in xs && x.depth == d;
    var y :| y in ys && y.depth == e;
    assert x in xs + ys && y in xs + ys;
  }

  /** The deepest leaf of the result is as deep as the sweep went, which is past the limit only if it began there. */
  lemma {:induction false} DeepestLeaf(s: Settings, b: BBox, depth: int)
    ensures ReachDown(Leaves(Analyse(s, b, depth)), Deepest(s, b, depth))
    ensures Deepest(s, b, depth) <= Larger(depth, s.maxDepth)
    decreases s.maxDepth - depth
  {
    hide Analyse, Leaves, LeavesAll, Stops, ReachDown, Quadrant;
    AnalyseShape(s, b, depth);
    if Stops(s, b, depth) {
      OneReaches(Analyse(s, b, depth));
    } else {
      var rs := Kids(s, b, depth);
      LeavesOfFour(rs);
      DeepestLeaf(s, Quadrant(b, 0), depth + 1);
      DeepestLeaf(s, Quadrant(b, 1), depth + 1);
      DeepestLeaf(s, Quadrant(b, 2), depth + 1);
      DeepestLeaf(s, Quadrant(b, 3), depth + 1);
      var d0, d1 := Deepest(s, Quadrant(b, 0), depth + 1), Deepest(s, Quadrant(b, 1), depth + 1);
      var d2, d3 := Deepest(s, Quadrant(b, 2), depth + 1), Deepest(s, Quadrant(b, 3), depth + 1);
      ReachJoins(Leaves(rs[0]), Leaves(rs[1]), d0, d1);
      ReachJoins(Leaves(rs[2]), Leaves(rs[3]), d2, d3);
      ReachJoins(Leaves(rs[0]) + Leaves(rs[1]), Leaves(rs[2]) + Leaves(rs[3]), Larger(d0, d1), Larger(d2, d3));
      assert Leaves(rs[0]) + Leaves(rs[1]) + Leaves(rs[2]) + Leaves(rs[3])
          == Leaves(rs[0]) + Leaves(rs[1]) + (Leaves(rs[2]) + Leaves(rs[3]));
    }
  }

  lemma OneReaches(r: Region)
    ensures ReachDown([r], r.depth)
  {
    assert r in [r];
  }

  class SpatialAnalyser {
    const settings: Settings
    var visited: nat
    var subdivided: nat
    var pruned: nat
    var leaves: nat
    var samplesTaken: nat
    var maxDepthReached: int

    constructor (settings: Settings)
      ensures this.settings == settings
      ensures visited == 0 && subdivided == 0 && pruned == 0 && leaves == 0 && samplesTaken == 0 && maxDepthReached == 0
    {
      this.settings := settings;
      visited, subdivided, pruned, leaves, samplesTaken, maxDepthReached := 0, 0, 0, 0, 0, 0;
    }

    method SampleBox(b: BBox) returns (xs: seq<Sample>)
      modifies `samplesTaken
      ensures xs == Samples(settings, b)
      ensures samplesTaken == old(samplesTaken) + |Slice(Probes(b), settings.samplesPerRegion)|
    {
      var pts := Slice(Probes(b), settings.samplesPerRegion);
      xs := [];
      for i := 0 to |pts|
        invariant xs == Read(settings.sampler, pts[..i]) && samplesTaken == old(samplesTaken) + i
      {
        assert pts[..i + 1][..i] == pts[..i];
        samplesTaken := samplesTaken + 1;
        var v := settings.sampler(pts[i].0, pts[i].1);
        if v.Some? {
          xs := xs + [Sample(pts[i].0, pts[i].1, v.value)];
        }
      }
      assert pts[..|pts|] == pts;
    }

    /** The four quadrants, in turn. */
    method SweepQuadrants(b: BBox, depth: int) returns (rs: seq<Region>)
      requires depth < settings.maxDepth && !Stops(settings, b, depth)
      modifies this
      ensures rs == Kids(settings, b, depth)
      ensures 1 + visited - old(visited) == Visited(settings, b, depth)
      ensures 1 + subdivided - old(subdivided) == Subdivided(settings, b, depth)
      ensures pruned - old(pruned) == Pruned(settings, b, depth)
      ensures leaves - old(leaves) == |LeavesAll(rs)|
      ensures samplesTaken - old(samplesTaken) == Taken(settings, Visited(settings, b, depth) - 1)
      ensures maxDepthReached == Larger(old(maxDepthReached), Deepest(settings, b, depth))
      decreases settings.maxDepth - depth, 0
    {
      hide Stops, Analyse, Leaves, LeavesAll, Taken, Visited, Subdivided, Pruned, Deepest, Quadrant;
      InnerCounts(settings, b, depth);
      var r0 := Sweep(Quadrant(b, 0), depth + 1);
      var r1 := Sweep(Quadrant(b, 1), depth + 1);
      var r2 := Sweep(Quadrant(b, 2), depth + 1);
      var r3 := Sweep(Quadrant(b, 3), depth + 1);
      rs := [r0, r1, r2, r3];
      LeavesOfFour(rs);
      TakenAddsUp(settings, Visited(settings, Quadrant(b, 0), depth + 1), Visited(settings, Quadrant(b, 1), depth + 1),
                  Visited(settings, Quadrant(b, 2), depth + 1), Visited(settings, Quadrant(b, 3), depth + 1));
      assert rs == Kids(settings, b, depth);
    }

    /** Sweeps a box; every node visited is probed the same number of times. */
    method Sweep(b: BBox, depth: int) returns (r: Region)
      modifies this
      ensures r == Analyse(settings, b, depth)
      ensures visited == old(visited) + Visited(settings, b, depth)
      ensures subdivided == old(subdivided) + Subdivided(settings, b, depth)
      ensures pruned == old(pruned) + Pruned(settings, b, depth)
      ensures leaves == old(leaves) + |Leaves(r)|
      ensures samplesTaken == old(samplesTaken) + Taken(settings, Visited(settings, b, depth))
      ensures maxDepthReached == Larger(old(maxDepthReached), Deepest(settings, b, depth))
      decreases settings.maxDepth - depth, 1
    {
      hide IsBaseCase, Samples, Analyse, Leaves, LeavesAll, LeafOf, Combine, Visited, Subdivided, Pruned, Deepest,
           Taken, Slice;
      AnalyseShape(settings, b, depth);
      LeafCounts(settings, b, depth);
      ProbesTaken(settings, b);
      OneMoreTaken(settings, Visited(settings, b, depth));
      visited := visited + 1;
      maxDepthReached := Larger(maxDepthReached, depth);
      var xs := SampleBox(b);
      if IsBaseCase(settings, b, depth, xs) {
        leaves := leaves + 1;
        if xs != [] && depth < settings.maxDepth {
          pruned := pruned + 1;
        }
        return LeafOf(b, depth, xs, xs != [] && depth < settings.maxDepth);
      }
      subdivided := subdivided + 1;
      var children := SweepQuadrants(b, depth);
      r := Combine(b, depth, children);
    }
  }

  lemma LeafCounts(s: Settings, b: BBox, depth: int)
    ensures Stops(s, b, depth) ==>
              && Analyse(s, b, depth) == LeafOf(b, depth, Samples(s, b), Samples(s, b) != [] && depth < s.maxDepth)
              && Visited(s, b, depth) == 1 && Subdivided(s, b, depth) == 0 && Deepest(s, b, depth) == depth
              && Pruned(s, b, depth) == if Samples(s, b) != [] && depth < s.maxDepth then 1 else 0
  {
  }

  lemma InnerCounts(s: Settings, b: BBox, depth: int)
    requires depth < s.maxDepth && !Stops(s, b, depth)
    ensures Visited(s, b, depth) ==
              1 + Visited(s, Quadrant(b, 0), depth + 1) + Visited(s, Quadrant(b, 1), depth + 1)
              + Visited(s, Quadrant(b, 2), depth + 1) + Visited(s, Quadrant(b, 3), depth + 1)
    ensures Subdivided(s, b, depth) ==
              1 + Subdivided(s, Quadrant(b, 0), depth + 1) + Subdivided(s, Quadrant(b, 1), depth + 1)
              + Subdivided(s, Quadrant(b, 2), depth + 1) + Subdivided(s, Quadrant(b, 3), depth + 1)
    ensures Pruned(s, b, depth) ==
              Pruned(s, Quadrant(b, 0), depth + 1) + Pruned(s, Quadrant(b, 1), depth + 1)
              + Pruned(s, Quadrant(b, 2), depth + 1) + Pruned(s, Quadrant(b, 3), depth + 1)
    ensures Deepest(s, b, depth) ==
              Larger(Larger(Deepest(s, Quadrant(b, 0), depth + 1), Deepest(s, Quadrant(b, 1), depth + 1)),
                     Larger(Deepest(s, Quadrant(b, 2), depth + 1), Deepest(s, Quadrant(b, 3), depth + 1)))
  {
    hide Stops, Quadrant;
  }

  lemma ProbesTaken(s: Settings, b: BBox)
    ensures |Slice(Probes(b), s.samplesPerRegion)| == ProbesPerBox(s)
  {
  }

  /** The probes that so many boxes take. */
  function Taken(s: Settings, boxes: nat): nat {
    ProbesPerBox(s) * boxes
  }

  lemma OneMoreTaken(s: Settings, boxes: nat)
    ensures Taken(s, 1) == ProbesPerBox(s)
    ensures boxes > 0 ==> ProbesPerBox(s) + Taken(s, boxes - 1) == Taken(s, boxes)
  {
  }

  lemma TakenAddsUp(s: Settings, a: nat, b: nat, c: nat, d: nat)
    ensures Taken(s, a) + Taken(s, b) + Taken(s, c) + Taken(s, d) == Taken(s, a + b + c + d)
  {
  }

  function ProbesPerBox(s: Settings): nat {
    if s.samplesPerRegion >= 5 then 5 else if s.samplesPerRegion >= 0 then s.samplesPerRegion
    else if 5 + s.samplesPerRegion >= 0 then 5 + s.samplesPerRegion else 0
  }
}
