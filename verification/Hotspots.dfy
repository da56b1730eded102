/**
 Exactly which hot areas the quadtree sweep of backend/app/spatial/quadtree.py cannot
 overlook: those that hold a point which a sweep of a calm surface probes, and hence,
 by their sides, those at least as wide as the cells where such a sweep stops.
 */
module Hotspots {
  import opened Quadtree
  import opened Wrappers

  predicate InHot(hot: BBox, p: (real, real)) {
    hot.minLon <= p.0 <= hot.maxLon && hot.minLat <= p.1 <= hot.maxLat
  }

  // ----- what is always reported -----------------------------------------------------------

  /** A surface defined everywhere, at or above the escalation threshold on all of `hot`. */
  ghost predicate HotOn(s: Settings, f: (real, real) -> Option<real>, hot: BBox) {
    forall lon, lat :: f(lon, lat).Some? && (InHot(hot, (lon, lat)) ==> s.escalateAbove <= f(lon, lat).value)
  }

  predicate Reported(s: Settings, r: Region) {
    r.hotspot.Some? && s.escalateAbove <= r.maxRisk
  }

  /** Whatever the surface is like elsewhere, the sweep reports an escalated risk. */
  ghost predicate AlwaysReported(s: Settings, b: BBox, hot: BBox) {
    forall f :: HotOn(s, f, hot) ==> Reported(s, Analyse(s.(sampler := f), b, 0))
  }

  // ----- the sweep of a calm surface ----------------------------------------------------------

  function Points(s: Settings, b: BBox): seq<(real, real)> {
    Slice(Probes(b), s.samplesPerRegion)
  }

  /** Where a sweep stops that reads the same low risk everywhere. */
  predicate CalmStops(s: Settings, b: BBox, depth: int) {
    || depth >= s.maxDepth || Small(s, b) || ProbesPerBox(s) == 0
    || (depth >= s.minDepth && ProbesPerBox(s) >= 2 && 0.0 <= s.tolerance)
  }

  /** Everything it probes, at the boxes where it stops. */
  function CalmProbes(s: Settings, b: BBox, depth: int): seq<(real, real)>
    decreases s.maxDepth - depth
  {
    if CalmStops(s, b, depth) then Points(s, b) else
      CalmProbes(s, Quadrant(b, 0), depth + 1) + CalmProbes(s, Quadrant(b, 1), depth + 1)
      + CalmProbes(s, Quadrant(b, 2), depth + 1) + CalmProbes(s, Quadrant(b, 3), depth + 1)
  }

  lemma {:induction false} ProbesComeBack(s: Settings, b: BBox, depth: int, p: (real, real))
    requires p in Points(s, b)
    ensures p in CalmProbes(s, b, depth)
    decreases s.maxDepth - depth
  {
    hide Probes, Slice, Quadrant;
    if !CalmStops(s, b, depth) {
      var j := ProbeReappears(b, s.samplesPerRegion, p);
      ProbesComeBack(s, Quadrant(b, j), depth + 1, p);
    }
  }

  ghost predicate Defined(f: (real, real) -> Option<real>) {
    forall lon, lat :: f(lon, lat).Some?
  }

  function RiskAt(f: (real, real) -> Option<real>, p: (real, real)): Sample {
    Sample(p.0, p.1, match f(p.0, p.1) case Some(v) => v case None => 0.0)
  }

  lemma {:induction false} ReadsAll(f: (real, real) -> Option<real>, pts: seq<(real, real)>)
    requires Defined(f)
    ensures |Read(f, pts)| == |pts|
  {
    if pts != [] {
      ReadsAll(f, pts[..|pts| - 1]);
    }
  }

  /** No surface stops the sweep before a calm one would. */
  lemma StopsNoEarlier(s: Settings, f: (real, real) -> Option<real>, b: BBox, depth: int)
    requires Defined(f) && !CalmStops(s, b, depth)
    ensures !Stops(s.(sampler := f), b, depth)
  {
    ProbesTaken(s, b);
    ReadsAll(f, Points(s, b));
    hide Probes, Slice, Read;
    assert Samples(s.(sampler := f), b) == Read(f, Points(s, b));
  }

  lemma {:induction false} CalmProbeIsSampled(s: Settings, f: (real, real) -> Option<real>, b: BBox, depth: int,
                                              p: (real, real))
    requires Defined(f) && p in CalmProbes(s, b, depth)
    ensures RiskAt(f, p) in LeafSamples(s.(sampler := f), b, depth)
    decreases s.maxDepth - depth
  {
    hide Probes, Slice, Read, Quadrant, IsBaseCase;
    var t := s.(sampler := f);
    if CalmStops(s, b, depth) {
      var x := RiskAt(f, p);
      ReadMembers(f, Points(s, b), x);
      SampleReachesLeaf(t, b, depth, x);
    } else {
      StopsNoEarlier(s, f, b, depth);
      var i := QuadrantOf(s, b, depth, p);
      CalmProbeIsSampled(s, f, Quadrant(b, i), depth + 1, p);
    }
  }

  lemma QuadrantOf(s: Settings, b: BBox, depth: int, p: (real, real)) returns (i: nat)
    requires p in CalmProbes(s, b, depth) && !CalmStops(s, b, depth)
    ensures i < 4 && p in CalmProbes(s, Quadrant(b, i), depth + 1)
  {
    hide Quadrant, CalmStops;
    i := if p in CalmProbes(s, Quadrant(b, 0), depth + 1) then 0
         else if p in CalmProbes(s, Quadrant(b, 1), depth + 1) then 1
         else if p in CalmProbes(s, Quadrant(b, 2), depth + 1) then 2 else 3;
  }

  lemma ProbedIsReported(s: Settings, f: (real, real) -> Option<real>, b: BBox, hot: BBox, p: (real, real))
    requires HotOn(s, f, hot) && p in CalmProbes(s, b, 0) && InHot(hot, p)
    ensures Reported(s, Analyse(s.(sampler := f), b, 0))
  {
    hide CalmProbes, Analyse, LeafSamples, Totals;
    assert s.escalateAbove <= RiskAt(f, p).risk;
    CalmProbeIsSampled(s, f, b, 0, p);
    AnalyseSumsUpLeaves(s.(sampler := f), b, 0);
    hide HotOn, RiskAt, InHot;
  }

  // ----- a surface that is hot on one area and calm elsewhere ------------------------------------

  function Spot(s: Settings, hot: BBox): (real, real) -> Option<real> {
    (lon: real, lat: real) => Some(if InHot(hot, (lon, lat)) then s.escalateAbove else s.escalateAbove - 1.0)
  }

  ghost predicate AllAt(xs: seq<Sample>, risk: real) {
    forall x :: x in xs ==> x.risk == risk
  }

  function Times(n: nat, risk: real): real {
    n as real * risk
  }

  lemma NoTimes(risk: real)
    ensures Times(0, risk) == 0.0
  {
  }

  lemma OneMore(n: nat, risk: real)
    ensures Times(n + 1, risk) == Times(n, risk) + risk
  {
  }

  lemma MeanOfLevel(n: nat, risk: real)
    requires n > 0
    ensures Times(n, risk) / n as real == risk
  {
  }

  lemma {:induction false} LevelSum(xs: seq<Sample>, risk: real)
    requires AllAt(xs, risk)
    ensures Sum(xs) == Times(|xs|, risk) && SquaredSpread(xs, risk) == 0.0
  {
    NoTimes(risk);
    hide Times;
    if xs != [] {
      var init, last := xs[..|xs| - 1], xs[|xs| - 1];
      assert last in xs && forall x :: x in init ==> x in xs;
      LevelSum(init, risk);
      OneMore(|init|, risk);
    }
  }

  lemma LevelIsUniform(xs: seq<Sample>, risk: real, tolerance: real)
    requires xs != [] && AllAt(xs, risk) && 0.0 <= tolerance
    ensures Uniform(xs, tolerance) && Worst(xs).risk == risk
  {
    LevelSum(xs, risk);
    MeanOfLevel(|xs|, risk);
    hide Sum, SquaredSpread, Times;
  }

  lemma SpotReads(s: Settings, hot: BBox, b: BBox)
    requires forall p :: p in Points(s, b) ==> !InHot(hot, p)
    ensures AllAt(Samples(s.(sampler := Spot(s, hot)), b), s.escalateAbove - 1.0)
    ensures |Samples(s.(sampler := Spot(s, hot)), b)| == ProbesPerBox(s)
  {
    var xs := Samples(s.(sampler := Spot(s, hot)), b);
    ProbesTaken(s, b);
    ReadsAll(Spot(s, hot), Points(s, b));
    hide Probes, Slice, Read, ProbesPerBox;
    forall x | x in xs ensures x.risk == s.escalateAbove - 1.0 {
      ReadMembers(Spot(s, hot), Points(s, b), x);
      assert (x.lon, x.lat) in Points(s, b);
    }
  }

  lemma SpotStops(s: Settings, hot: BBox, b: BBox, depth: int)
    requires CalmStops(s, b, depth) && forall p :: p in Points(s, b) ==> !InHot(hot, p)
    ensures Stops(s.(sampler := Spot(s, hot)), b, depth)
  {
    SpotReads(s, hot, b);
    var xs := Samples(s.(sampler := Spot(s, hot)), b);
    LevelStops(s.(sampler := Spot(s, hot)), b, depth, xs);
    hide Samples, Points, AllAt, IsBaseCase;
  }

  lemma LevelStops(s: Settings, b: BBox, depth: int, xs: seq<Sample>)
    requires CalmStops(s, b, depth) && AllAt(xs, s.escalateAbove - 1.0) && |xs| == ProbesPerBox(s)
    ensures IsBaseCase(s, b, depth, xs)
  {
    hide ProbesPerBox, Uniform, AllAt;
    if xs != [] && 0.0 <= s.tolerance {
      LevelIsUniform(xs, s.escalateAbove - 1.0, s.tolerance);
    }
  }

  /** A spot between the calm probes is never sampled. */
  lemma {:induction false} SpotIsMissed(s: Settings, hot: BBox, b: BBox, depth: int)
    requires forall p :: p in CalmProbes(s, b, depth) ==> !InHot(hot, p)
    ensures AllAt(LeafSamples(s.(sampler := Spot(s, hot)), b, depth), s.escalateAbove - 1.0)
    decreases s.maxDepth - depth
  {
    hide Samples, Points, Quadrant, IsBaseCase;
    var t := s.(sampler := Spot(s, hot));
    forall p | p in Points(s, b) ensures !InHot(hot, p) {
      ProbesComeBack(s, b, depth, p);
    }
    SpotReads(s, hot, b);
    if CalmStops(s, b, depth) {
      SpotStops(s, hot, b, depth);
    } else if !Stops(t, b, depth) {
      SpotIsMissed(s, hot, Quadrant(b, 0), depth + 1);
      SpotIsMissed(s, hot, Quadrant(b, 1), depth + 1);
      SpotIsMissed(s, hot, Quadrant(b, 2), depth + 1);
      SpotIsMissed(s, hot, Quadrant(b, 3), depth + 1);
    }
  }

  lemma SpotIsHot(s: Settings, hot: BBox)
    ensures HotOn(s, Spot(s, hot), hot)
  {
  }

  lemma CalmIsUnreported(s: Settings, f: (real, real) -> Option<real>, b: BBox)
    requires AllAt(LeafSamples(s.(sampler := f), b, 0), s.escalateAbove - 1.0)
    ensures !Reported(s, Analyse(s.(sampler := f), b, 0))
  {
    hide Analyse, LeafSamples, Totals;
    AnalyseSumsUpLeaves(s.(sampler := f), b, 0);
  }

  lemma ProbedIsAlways(s: Settings, b: BBox, hot: BBox, p: (real, real))
    requires p in CalmProbes(s, b, 0) && InHot(hot, p)
    ensures AlwaysReported(s, b, hot)
  {
    hide CalmProbes, Analyse, HotOn, InHot, Reported;
    forall f | HotOn(s, f, hot) ensures Reported(s, Analyse(s.(sampler := f), b, 0)) {
      ProbedIsReported(s, f, b, hot, p);
    }
  }

  ghost predicate Probed(s: Settings, b: BBox, hot: BBox) {
    exists p :: p in CalmProbes(s, b, 0) && InHot(hot, p)
  }

  lemma SpotIsUnreported(s: Settings, b: BBox, hot: BBox)
    requires !Probed(s, b, hot)
    ensures !Reported(s, Analyse(s.(sampler := Spot(s, hot)), b, 0))
  {
    hide CalmProbes, Analyse, LeafSamples, AllAt, InHot, Reported, Spot;
    SpotIsMissed(s, hot, b, 0);
    CalmIsUnreported(s, Spot(s, hot), b);
  }

  lemma OneIsMissed(s: Settings, b: BBox, hot: BBox, f: (real, real) -> Option<real>)
    requires HotOn(s, f, hot) && !Reported(s, Analyse(s.(sampler := f), b, 0))
    ensures !AlwaysReported(s, b, hot)
  {
    hide HotOn, Reported, Analyse;
  }

  lemma UnprobedIsMissed(s: Settings, b: BBox, hot: BBox)
    requires !Probed(s, b, hot)
    ensures !AlwaysReported(s, b, hot)
  {
    hide Probed, CalmProbes, Analyse, HotOn, InHot, Reported, Spot, AlwaysReported;
    SpotIsUnreported(s, b, hot);
    SpotIsHot(s, hot);
    OneIsMissed(s, b, hot, Spot(s, hot));
  }

  /** A hot area is always reported if and only if it holds a probe of the calm sweep. */
  lemma ReportedExactly(s: Settings, b: BBox, hot: BBox)
    ensures AlwaysReported(s, b, hot) <==> Probed(s, b, hot)
  {
    hide CalmProbes, AlwaysReported, InHot;
    if Probed(s, b, hot) {
      var p :| p in CalmProbes(s, b, 0) && InHot(hot, p);
      ProbedIsAlways(s, b, hot, p);
    } else {
      UnprobedIsMissed(s, b, hot);
    }
  }

  // ----- cells along one axis -------------------------------------------------------------------

  /** [c, d] is what is left of [lo, hi] after halving it `n` times, on either side each time. */
  ghost predicate Cell(lo: real, hi: real, n: nat, c: real, d: real)
    decreases n
  {
    if n == 0 then c == lo && d == hi
    else
      var mid := (lo + hi) / 2.0;
      Cell(lo, mid, n - 1, c, d) || Cell(mid, hi, n - 1, c, d)
  }

  /** A length halved `n` times. */
  function Side(length: real, n: nat): real
    decreases n
  {
    if n == 0 then length else Side(length / 2.0, n - 1)
  }

  lemma {:induction false} SideHalves(length: real, n: nat)
    ensures Side(length, n + 1) == Side(length, n) / 2.0
    ensures length > 0.0 ==> 0.0 < Side(length, n) <= length
    ensures length > 0.0 && n > 0 ==> 2.0 * Side(length, n) <= length
    decreases n
  {
    if n > 0 {
      SideHalves(length / 2.0, n - 1);
    }
  }

  lemma Halves(lo: real, hi: real)
    ensures (lo + hi) / 2.0 - lo == (hi - lo) / 2.0 && hi - (lo + hi) / 2.0 == (hi - lo) / 2.0
  {
  }

  lemma {:induction false} CellBounds(lo: real, hi: real, n: nat, c: real, d: real)
    requires lo < hi && Cell(lo, hi, n, c, d)
    ensures lo <= c && d <= hi && d - c == Side(hi - lo, n)
    ensures c == lo || lo + Side(hi - lo, n) <= c
    decreases n
  {
    SideHalves(hi - lo, n);
    if n > 0 {
      var mid := (lo + hi) / 2.0;
      Halves(lo, hi);
      if Cell(lo, mid, n - 1, c, d) {
        CellBounds(lo, mid, n - 1, c, d);
      } else {
        CellBounds(mid, hi, n - 1, c, d);
      }
    }
  }

  lemma {:induction false} FirstCell(lo: real, hi: real, n: nat)
    requires lo < hi
    ensures Cell(lo, hi, n, lo, lo + Side(hi - lo, n))
    decreases n
  {
    if n > 0 {
      Halves(lo, hi);
      FirstCell(lo, (lo + hi) / 2.0, n - 1);
    }
  }

  lemma {:induction false} LastCell(lo: real, hi: real, n: nat)
    requires lo < hi
    ensures Cell(lo, hi, n, hi - Side(hi - lo, n), hi)
    decreases n
  {
    if n > 0 {
      Halves(lo, hi);
      LastCell((lo + hi) / 2.0, hi, n - 1);
    }
  }

  /** An interval inside, no shorter than a cell, holds the lower end of one. */
  lemma {:induction false} HoldsLowEnd(lo: real, hi: real, n: nat, a: real, e: real) returns (c: real, d: real)
    requires lo < hi && lo <= a && e <= hi && Side(hi - lo, n) <= e - a
    ensures Cell(lo, hi, n, c, d) && a <= c <= e
    decreases n
  {
    if n == 0 {
      c, d := lo, hi;
    } else {
      var mid := (lo + hi) / 2.0;
      Halves(lo, hi);
      SideHalves(hi - lo, n);
      if e < mid {
        c, d := HoldsLowEnd(lo, mid, n - 1, a, e);
      } else if mid < a {
        c, d := HoldsLowEnd(mid, hi, n - 1, a, e);
      } else {
        FirstCell(mid, hi, n - 1);
        c, d := mid, mid + Side(hi - mid, n - 1);
      }
    }
  }

  /** An interval that only touches, no shorter than a cell, holds an end of one. */
  lemma {:induction false} HoldsAnEnd(lo: real, hi: real, n: nat, a: real, e: real) returns (c: real, d: real)
    requires lo < hi && a <= hi && lo <= e && Side(hi - lo, n) <= e - a
    ensures Cell(lo, hi, n, c, d) && (a <= c <= e || a <= d <= e)
    decreases n
  {
    if n == 0 {
      c, d := lo, hi;
    } else {
      var mid := (lo + hi) / 2.0;
      Halves(lo, hi);
      SideHalves(hi - lo, n);
      if a <= mid {
        c, d := HoldsAnEnd(lo, mid, n - 1, a, e);
      } else {
        c, d := HoldsAnEnd(mid, hi, n - 1, a, e);
      }
    }
  }

  /** An interval inside, no shorter than a cell, holds the middle of one. */
  lemma {:induction false} HoldsMiddle(lo: real, hi: real, n: nat, a: real, e: real) returns (c: real, d: real)
    requires lo < hi && lo <= a && e <= hi && Side(hi - lo, n) <= e - a
    ensures Cell(lo, hi, n, c, d) && a <= (c + d) / 2.0 <= e
    decreases n
  {
    if n == 0 {
      c, d := lo, hi;
    } else {
      var mid := (lo + hi) / 2.0;
      Halves(lo, hi);
      SideHalves(hi - lo, n);
      if e < mid {
        c, d := HoldsMiddle(lo, mid, n - 1, a, e);
      } else if mid < a {
        c, d := HoldsMiddle(mid, hi, n - 1, a, e);
      } else if mid + Side(hi - lo, n) / 2.0 <= e {
        FirstCell(mid, hi, n - 1);
        c, d := mid, mid + Side(hi - mid, n - 1);
      } else {
        LastCell(lo, mid, n - 1);
        c, d := mid - Side(mid - lo, n - 1), mid;
      }
    }
  }

  /** A cell's half begins where the cell does, or in its middle. */
  lemma {:induction false} HalfOf(lo: real, hi: real, n: nat, c': real, d': real) returns (c: real, d: real)
    requires Cell(lo, hi, n + 1, c', d')
    ensures Cell(lo, hi, n, c, d) && (c' == c || c' == (c + d) / 2.0)
    decreases n
  {
    if n == 0 {
      c, d := lo, hi;
      assert Cell(lo, (lo + hi) / 2.0, 0, c', d') || Cell((lo + hi) / 2.0, hi, 0, c', d');
    } else {
      var mid := (lo + hi) / 2.0;
      if Cell(lo, mid, n, c', d') {
        c, d := HalfOf(lo, mid, n - 1, c', d');
      } else {
        c, d := HalfOf(mid, hi, n - 1, c', d');
      }
    }
  }

  lemma HoldsEndOrMiddle(lo: real, hi: real, n: nat, a: real, e: real) returns (c: real, d: real)
    requires lo < hi && lo <= a && e <= hi && Side(hi - lo, n) / 2.0 <= e - a
    ensures Cell(lo, hi, n, c, d) && (a <= c <= e || a <= (c + d) / 2.0 <= e)
  {
    SideHalves(hi - lo, n);
    var c', d' := HoldsLowEnd(lo, hi, n + 1, a, e);
    c, d := HalfOf(lo, hi, n, c', d');
  }

  // ----- the cells at which a calm sweep stops ---------------------------------------------------

  /** How many levels below a box of these sides a calm sweep stops. */
  function Levels(s: Settings, w: real, h: real, depth: int): nat
    decreases s.maxDepth - depth
  {
    if || depth >= s.maxDepth || (w <= s.leafSize && h <= s.leafSize) || ProbesPerBox(s) == 0
       || (depth >= s.minDepth && ProbesPerBox(s) >= 2 && 0.0 <= s.tolerance)
    then 0 else 1 + Levels(s, w / 2.0, h / 2.0, depth + 1)
  }

  function CalmLevels(s: Settings, b: BBox): nat {
    Levels(s, b.Width(), b.Height(), 0)
  }

  /** `q` is a cell of the grid that `n` halvings make of `b`. */
  ghost predicate CellOf(b: BBox, n: nat, q: BBox) {
    Cell(b.minLon, b.maxLon, n, q.minLon, q.maxLon) && Cell(b.minLat, b.maxLat, n, q.minLat, q.maxLat)
  }

  lemma QuadrantCells(b: BBox, n: nat, i: nat, q: BBox)
    requires i < 4 && CellOf(Quadrant(b, i), n, q)
    ensures CellOf(b, n + 1, q)
  {
  }

  lemma CellQuadrant(b: BBox, n: nat, q: BBox) returns (i: nat)
    requires CellOf(b, n + 1, q)
    ensures i < 4 && CellOf(Quadrant(b, i), n, q)
  {
    var west := Cell(b.minLon, b.CentreLon(), n, q.minLon, q.maxLon);
    var south := Cell(b.minLat, b.CentreLat(), n, q.minLat, q.maxLat);
    i := if west then (if south then 2 else 0) else if south then 3 else 1;
  }

  lemma QuadrantSides(b: BBox, i: nat)
    requires i < 4
    ensures Quadrant(b, i).Width() == b.Width() / 2.0 && Quadrant(b, i).Height() == b.Height() / 2.0
  {
  }

  lemma {:induction false} CalmProbeHasCell(s: Settings, b: BBox, depth: int, p: (real, real)) returns (q: BBox)
    requires p in CalmProbes(s, b, depth)
    ensures CellOf(b, Levels(s, b.Width(), b.Height(), depth), q) && p in Points(s, q)
    decreases s.maxDepth - depth
  {
    hide Points, Quadrant, ProbesPerBox;
    if CalmStops(s, b, depth) {
      q := b;
    } else {
      var i := QuadrantOf(s, b, depth, p);
      QuadrantSides(b, i);
      q := CalmProbeHasCell(s, Quadrant(b, i), depth + 1, p);
      QuadrantCells(b, Levels(s, b.Width() / 2.0, b.Height() / 2.0, depth + 1), i, q);
    }
  }

  lemma {:induction false} CellsAreProbed(s: Settings, b: BBox, depth: int, q: BBox, p: (real, real))
    requires CellOf(b, Levels(s, b.Width(), b.Height(), depth), q) && p in Points(s, q)
    ensures p in CalmProbes(s, b, depth)
    decreases s.maxDepth - depth
  {
    hide Points, Quadrant, ProbesPerBox;
    if CalmStops(s, b, depth) {
      assert q == b;
    } else {
      var i := CellQuadrant(b, Levels(s, b.Width() / 2.0, b.Height() / 2.0, depth + 1), q);
      QuadrantSides(b, i);
      CellsAreProbed(s, Quadrant(b, i), depth + 1, q, p);
    }
  }

  /** Corners, while there are at least four samples. */
  lemma CornersAreProbed(s: Settings, q: BBox)
    requires 4 <= ProbesPerBox(s)
    ensures (q.minLon, q.minLat) in Points(s, q) && (q.maxLon, q.minLat) in Points(s, q)
    ensures (q.minLon, q.maxLat) in Points(s, q) && (q.maxLon, q.maxLat) in Points(s, q)
    ensures ProbesPerBox(s) == 5 ==> (q.CentreLon(), q.CentreLat()) in Points(s, q)
  {
    var ps := Points(s, q);
    assert ps[0] == Probes(q)[0] && ps[1] == Probes(q)[1] && ps[2] == Probes(q)[2] && ps[3] == Probes(q)[3];
    if ProbesPerBox(s) == 5 {
      assert ps[4] == Probes(q)[4];
    }
  }

  lemma FirstCornerIsProbed(s: Settings, q: BBox)
    requires 1 <= ProbesPerBox(s)
    ensures (q.minLon, q.minLat) in Points(s, q)
  {
    assert Points(s, q)[0] == Probes(q)[0];
  }

  /** Corners only, unless there are five samples; never the last corner when fewer than four. */
  lemma PointsAre(s: Settings, q: BBox, p: (real, real))
    requires p in Points(s, q)
    ensures 0 < ProbesPerBox(s)
    ensures || ((p.0 == q.minLon || p.0 == q.maxLon) && (p.1 == q.minLat || p.1 == q.maxLat))
            || (ProbesPerBox(s) == 5 && p == (q.CentreLon(), q.CentreLat()))
    ensures ProbesPerBox(s) < 4 ==> p.0 == q.minLon || p.1 == q.minLat
  {
    var k :| 0 <= k < |Points(s, q)| && Points(s, q)[k] == p;
    assert p == Probes(q)[k];
  }

  // ----- which rectangles are always reported -------------------------------------------------------

  ghost predicate Proper(b: BBox) {
    b.minLon < b.maxLon && b.minLat < b.maxLat
  }

  ghost predicate OfSides(hot: BBox, w: real, h: real) {
    hot.Width() == w && hot.Height() == h
  }

  /** The two ranges, neither of them reversed, have a point in common. */
  predicate Meets(lo: real, hi: real, a: real, e: real) {
    lo <= hi && a <= e && a <= hi && lo <= e
  }

  predicate Touches(b: BBox, hot: BBox) {
    Meets(b.minLon, b.maxLon, hot.minLon, hot.maxLon) && Meets(b.minLat, b.maxLat, hot.minLat, hot.maxLat)
  }

  ghost predicate Inside(b: BBox, hot: BBox) {
    b.minLon <= hot.minLon && hot.maxLon <= b.maxLon && b.minLat <= hot.minLat && hot.maxLat <= b.maxLat
  }

  /** The sides of the cells where a calm sweep of `b` stops. */
  function CellWidth(s: Settings, b: BBox): real {
    Side(b.Width(), CalmLevels(s, b))
  }

  function CellHeight(s: Settings, b: BBox): real {
    Side(b.Height(), CalmLevels(s, b))
  }

  lemma HotPoint(s: Settings, b: BBox, hot: BBox, q: BBox, p: (real, real))
    requires CellOf(b, CalmLevels(s, b), q) && p in Points(s, q) && InHot(hot, p)
    ensures AlwaysReported(s, b, hot)
  {
    CellsAreProbed(s, b, 0, q, p);
    hide CellOf, Points, CalmProbes, AlwaysReported, InHot;
    ReportedExactly(s, b, hot);
  }

  lemma WideTouchingIsReported(s: Settings, b: BBox, hot: BBox)
    requires Proper(b) && Touches(b, hot) && 4 <= ProbesPerBox(s)
    requires CellWidth(s, b) <= hot.Width() && CellHeight(s, b) <= hot.Height()
    ensures AlwaysReported(s, b, hot)
  {
    var n := CalmLevels(s, b);
    hide Cell, Side, Levels, CalmLevels, ProbesPerBox, AlwaysReported, Points;
    var c, d := HoldsAnEnd(b.minLon, b.maxLon, n, hot.minLon, hot.maxLon);
    var c', d' := HoldsAnEnd(b.minLat, b.maxLat, n, hot.minLat, hot.maxLat);
    var q := BBox(c, c', d, d');
    CornersAreProbed(s, q);
    HotPoint(s, b, hot, q, (if hot.minLon <= c <= hot.maxLon then c else d,
                            if hot.minLat <= c' <= hot.maxLat then c' else d'));
  }

  lemma WideInsideIsReported(s: Settings, b: BBox, hot: BBox)
    requires Proper(b) && Inside(b, hot) && 1 <= ProbesPerBox(s)
    requires CellWidth(s, b) <= hot.Width() && CellHeight(s, b) <= hot.Height()
    ensures AlwaysReported(s, b, hot)
  {
    var n := CalmLevels(s, b);
    hide Cell, Side, Levels, CalmLevels, ProbesPerBox, AlwaysReported, Points;
    var c, d := HoldsLowEnd(b.minLon, b.maxLon, n, hot.minLon, hot.maxLon);
    var c', d' := HoldsLowEnd(b.minLat, b.maxLat, n, hot.minLat, hot.maxLat);
    var q := BBox(c, c', d, d');
    FirstCornerIsProbed(s, q);
    HotPoint(s, b, hot, q, (c, c'));
  }

  /** What an interval inside needs to hold both an end and a middle of a cell. */
  lemma HoldsBoth(lo: real, hi: real, n: nat, a: real, e: real) returns (c: real, d: real, c': real, d': real)
    requires lo < hi && lo <= a && e <= hi && Side(hi - lo, n) <= e - a
    ensures Cell(lo, hi, n, c, d) && a <= c <= e
    ensures Cell(lo, hi, n, c', d') && a <= (c' + d') / 2.0 <= e
  {
    c, d := HoldsLowEnd(lo, hi, n, a, e);
    c', d' := HoldsMiddle(lo, hi, n, a, e);
  }

  lemma HalfCellIsReported(s: Settings, b: BBox, hot: BBox)
    requires Proper(b) && Inside(b, hot) && ProbesPerBox(s) == 5
    requires CellWidth(s, b) / 2.0 <= hot.Width() && CellHeight(s, b) / 2.0 <= hot.Height()
    requires CalmLevels(s, b) == 0 || CellWidth(s, b) <= hot.Width() || CellHeight(s, b) <= hot.Height()
    ensures AlwaysReported(s, b, hot)
  {
    var n := CalmLevels(s, b);
    hide Side, Levels, CalmLevels, ProbesPerBox, AlwaysReported, Points;
    var q: BBox, p: (real, real);
    var c, d := HoldsEndOrMiddle(b.minLon, b.maxLon, n, hot.minLon, hot.maxLon);
    var c', d' := HoldsEndOrMiddle(b.minLat, b.maxLat, n, hot.minLat, hot.maxLat);
    if hot.minLon <= (c + d) / 2.0 <= hot.maxLon && hot.minLat <= (c' + d') / 2.0 <= hot.maxLat {
      q, p := BBox(c, c', d, d'), ((c + d) / 2.0, (c' + d') / 2.0);
    } else if hot.minLon <= c <= hot.maxLon && hot.minLat <= c' <= hot.maxLat {
      q, p := BBox(c, c', d, d'), (c, c');
    } else if CellWidth(s, b) <= hot.Width() {
      var e, g, e', g' := HoldsBoth(b.minLon, b.maxLon, n, hot.minLon, hot.maxLon);
      if hot.minLat <= c' <= hot.maxLat {
        q, p := BBox(e, c', g, d'), (e, c');
      } else {
        q, p := BBox(e', c', g', d'), ((e' + g') / 2.0, (c' + d') / 2.0);
      }
    } else if CellHeight(s, b) <= hot.Height() {
      var e, g, e', g' := HoldsBoth(b.minLat, b.maxLat, n, hot.minLat, hot.maxLat);
      if hot.minLon <= c <= hot.maxLon {
        q, p := BBox(c, e, d, g), (c, e);
      } else {
        q, p := BBox(c, e', d, g'), ((c + d) / 2.0, (e' + g') / 2.0);
      }
    } else {
      SideOfNone(b.Width());
      SideOfNone(b.Height());
      q, p := b, (b.CentreLon(), b.CentreLat());
    }
    CornersAreProbed(s, q);
    hide Cell;
    HotPoint(s, b, hot, q, p);
  }

  lemma SideOfNone(length: real)
    ensures Side(length, 0) == length
  {
  }

  // ----- which rectangles can be missed -----------------------------------------------------------------

  /** No cell has an end, and none a middle, strictly between these bounds near the low end. */
  lemma NearLowEnd(lo: real, hi: real, n: nat, c: real, d: real)
    requires lo < hi && Cell(lo, hi, n, c, d)
    ensures var side := Side(hi - lo, n);
            && 0.0 < side && lo <= c < d <= hi && d == c + side && (c == lo || lo + side <= c)
            && (c == lo || lo + 3.0 * side / 2.0 <= (c + d) / 2.0)
  {
    SideHalves(hi - lo, n);
    CellBounds(lo, hi, n, c, d);
  }

  ghost predicate Unhit(s: Settings, b: BBox, hot: BBox) {
    forall q, p :: CellOf(b, CalmLevels(s, b), q) && p in Points(s, q) ==> !InHot(hot, p)
  }

  lemma UnhitIsMissed(s: Settings, b: BBox, hot: BBox)
    requires Unhit(s, b, hot)
    ensures !AlwaysReported(s, b, hot)
  {
    hide Unhit, Probed, AlwaysReported;
    ProbedIsHit(s, b, hot);
    ReportedExactly(s, b, hot);
  }

  lemma ProbedIsHit(s: Settings, b: BBox, hot: BBox)
    ensures Probed(s, b, hot) ==> !Unhit(s, b, hot)
  {
    if Probed(s, b, hot) {
      var p :| p in CalmProbes(s, b, 0) && InHot(hot, p);
      var q := CalmProbeHasCell(s, b, 0, p);
      hide CellOf, InHot, CalmProbes;
      assert CellOf(b, CalmLevels(s, b), q) && p in Points(s, q);
    }
  }

  ghost predicate AvoidsEnds(lo: real, hi: real, n: nat, a: real, e: real) {
    forall c, d :: Cell(lo, hi, n, c, d) ==> !(a <= c <= e) && !(a <= d <= e)
  }

  ghost predicate AvoidsMiddles(lo: real, hi: real, n: nat, a: real, e: real) {
    forall c, d :: Cell(lo, hi, n, c, d) ==> !(a <= (c + d) / 2.0 <= e)
  }

  /** Narrower than a cell: it fits between the ends of the first. */
  lemma FitsBetweenEnds(lo: real, hi: real, n: nat, w: real) returns (a: real)
    requires lo < hi && 0.0 <= w < Side(hi - lo, n)
    ensures lo <= a && a + w <= hi && AvoidsEnds(lo, hi, n, a, a + w)
  {
    var side := Side(hi - lo, n);
    SideHalves(hi - lo, n);
    a := lo + (side - w) / 2.0;
    forall c, d | Cell(lo, hi, n, c, d) ensures !(a <= c <= a + w) && !(a <= d <= a + w) {
      NearLowEnd(lo, hi, n, c, d);
    }
  }

  /** Narrower than half a cell: it fits between a middle and an end as well. */
  lemma FitsInHalf(lo: real, hi: real, n: nat, w: real) returns (a: real)
    requires lo < hi && 0.0 <= w < Side(hi - lo, n) / 2.0
    ensures lo <= a && a + w <= hi && AvoidsEnds(lo, hi, n, a, a + w) && AvoidsMiddles(lo, hi, n, a, a + w)
  {
    var side := Side(hi - lo, n);
    SideHalves(hi - lo, n);
    a := lo + side / 2.0 + (side / 2.0 - w) / 2.0;
    forall c, d | Cell(lo, hi, n, c, d)
      ensures !(a <= c <= a + w) && !(a <= d <= a + w) && !(a <= (c + d) / 2.0 <= a + w)
    {
      NearLowEnd(lo, hi, n, c, d);
    }
  }

  /** Narrower than a cell, where there are two: it fits between their middles. */
  lemma FitsBetweenMiddles(lo: real, hi: real, n: nat, w: real) returns (a: real)
    requires lo < hi && n > 0 && 0.0 <= w < Side(hi - lo, n)
    ensures lo <= a && a + w <= hi && AvoidsMiddles(lo, hi, n, a, a + w)
  {
    var side := Side(hi - lo, n);
    SideHalves(hi - lo, n);
    a := lo + side / 2.0 + (side - w) / 2.0;
    forall c, d | Cell(lo, hi, n, c, d) ensures !(a <= (c + d) / 2.0 <= a + w) {
      NearLowEnd(lo, hi, n, c, d);
    }
  }

  /** Nothing above the box is the middle of a cell. */
  lemma AboveAvoidsMiddles(lo: real, hi: real, n: nat, w: real)
    requires lo < hi && 0.0 <= w
    ensures AvoidsMiddles(lo, hi, n, hi, hi + w)
  {
    forall c, d | Cell(lo, hi, n, c, d) ensures !(hi <= (c + d) / 2.0 <= hi + w) {
      NearLowEnd(lo, hi, n, c, d);
    }
  }

  ghost predicate ClearOfCorners(s: Settings, b: BBox, hot: BBox) {
    || AvoidsEnds(b.minLon, b.maxLon, CalmLevels(s, b), hot.minLon, hot.maxLon)
    || AvoidsEnds(b.minLat, b.maxLat, CalmLevels(s, b), hot.minLat, hot.maxLat)
  }

  ghost predicate ClearOfCentres(s: Settings, b: BBox, hot: BBox) {
    || AvoidsMiddles(b.minLon, b.maxLon, CalmLevels(s, b), hot.minLon, hot.maxLon)
    || AvoidsMiddles(b.minLat, b.maxLat, CalmLevels(s, b), hot.minLat, hot.maxLat)
  }

  lemma ClearIsMissed(s: Settings, b: BBox, hot: BBox)
    requires ClearOfCorners(s, b, hot) && (ProbesPerBox(s) < 5 || ClearOfCentres(s, b, hot))
    ensures !AlwaysReported(s, b, hot)
  {
    hide Cell, CalmLevels, ProbesPerBox, Points, AlwaysReported;
    forall q, p | CellOf(b, CalmLevels(s, b), q) && p in Points(s, q) ensures !InHot(hot, p) {
      PointsAre(s, q, p);
    }
    UnhitIsMissed(s, b, hot);
  }

  /** With fewer than four samples nothing probes the upper right corner of the box. */
  lemma UpperRightIsMissed(s: Settings, b: BBox, w: real, h: real) returns (hot: BBox)
    requires Proper(b) && 0.0 <= w && 0.0 <= h && ProbesPerBox(s) < 4
    ensures OfSides(hot, w, h) && Touches(b, hot) && !AlwaysReported(s, b, hot)
  {
    hot := BBox(b.maxLon, b.maxLat, b.maxLon + w, b.maxLat + h);
    var n := CalmLevels(s, b);
    hide Cell, CalmLevels, ProbesPerBox, Points, AlwaysReported;
    forall q, p | CellOf(b, n, q) && p in Points(s, q) ensures !InHot(hot, p) {
      PointsAre(s, q, p);
      NearLowEnd(b.minLon, b.maxLon, n, q.minLon, q.maxLon);
      NearLowEnd(b.minLat, b.maxLat, n, q.minLat, q.maxLat);
    }
    UnhitIsMissed(s, b, hot);
  }

  lemma NarrowTouchingIsMissed(s: Settings, b: BBox, w: real, h: real) returns (hot: BBox)
    requires Proper(b) && 0.0 <= w && 0.0 <= h && (w < CellWidth(s, b) || h < CellHeight(s, b))
    ensures OfSides(hot, w, h) && Touches(b, hot) && !AlwaysReported(s, b, hot)
  {
    var n := CalmLevels(s, b);
    hide Cell, Side, CalmLevels, AvoidsEnds, AvoidsMiddles, AlwaysReported, ProbesPerBox;
    if w < CellWidth(s, b) {
      var a := FitsBetweenEnds(b.minLon, b.maxLon, n, w);
      AboveAvoidsMiddles(b.minLat, b.maxLat, n, h);
      hot := BBox(a, b.maxLat, a + w, b.maxLat + h);
    } else {
      var a := FitsBetweenEnds(b.minLat, b.maxLat, n, h);
      AboveAvoidsMiddles(b.minLon, b.maxLon, n, w);
      hot := BBox(b.maxLon, a, b.maxLon + w, a + h);
    }
    ClearIsMissed(s, b, hot);
  }

  /** Rectangles inside, with corners probed alone or not at all. */
  lemma NarrowInsideIsMissed(s: Settings, b: BBox, w: real, h: real) returns (hot: BBox)
    requires Proper(b) && 0.0 <= w <= b.Width() && 0.0 <= h <= b.Height() && ProbesPerBox(s) < 5
    requires w < CellWidth(s, b) || h < CellHeight(s, b)
    ensures OfSides(hot, w, h) && Inside(b, hot) && !AlwaysReported(s, b, hot)
  {
    var n := CalmLevels(s, b);
    hide Cell, Side, CalmLevels, AvoidsEnds, AvoidsMiddles, AlwaysReported, ProbesPerBox;
    if w < CellWidth(s, b) {
      var a := FitsBetweenEnds(b.minLon, b.maxLon, n, w);
      hot := BBox(a, b.minLat, a + w, b.minLat + h);
    } else {
      var a := FitsBetweenEnds(b.minLat, b.maxLat, n, h);
      hot := BBox(b.minLon, a, b.minLon + w, a + h);
    }
    ClearIsMissed(s, b, hot);
  }

  lemma UnprobedInsideIsMissed(s: Settings, b: BBox, w: real, h: real) returns (hot: BBox)
    requires 0.0 <= w <= b.Width() && 0.0 <= h <= b.Height() && ProbesPerBox(s) == 0
    ensures OfSides(hot, w, h) && Inside(b, hot) && !AlwaysReported(s, b, hot)
  {
    hot := BBox(b.minLon, b.minLat, b.minLon + w, b.minLat + h);
    hide Cell, CalmLevels, ProbesPerBox, Points, AlwaysReported;
    forall q ensures Points(s, q) == [] {
      NoPoints(s, q);
    }
    UnhitIsMissed(s, b, hot);
  }

  lemma NoPoints(s: Settings, q: BBox)
    requires ProbesPerBox(s) == 0
    ensures Points(s, q) == []
  {
  }

  /** Rectangles inside, with corners and centres probed: narrower than half a cell one way. */
  lemma HalfNarrowIsMissed(s: Settings, b: BBox, w: real, h: real) returns (hot: BBox)
    requires Proper(b) && 0.0 <= w <= b.Width() && 0.0 <= h <= b.Height()
    requires w < CellWidth(s, b) / 2.0 || h < CellHeight(s, b) / 2.0
    ensures OfSides(hot, w, h) && Inside(b, hot) && !AlwaysReported(s, b, hot)
  {
    var n := CalmLevels(s, b);
    hide Cell, Side, CalmLevels, AvoidsEnds, AvoidsMiddles, AlwaysReported, ProbesPerBox;
    if w < CellWidth(s, b) / 2.0 {
      var a := FitsInHalf(b.minLon, b.maxLon, n, w);
      hot := BBox(a, b.minLat, a + w, b.minLat + h);
    } else {
      var a := FitsInHalf(b.minLat, b.maxLat, n, h);
      hot := BBox(b.minLon, a, b.minLon + w, a + h);
    }
    ClearIsMissed(s, b, hot);
  }

  /** Narrower than a cell both ways: between ends one way, between middles the other. */
  lemma NarrowBothWaysIsMissed(s: Settings, b: BBox, w: real, h: real) returns (hot: BBox)
    requires Proper(b) && CalmLevels(s, b) > 0
    requires 0.0 <= w < CellWidth(s, b) && 0.0 <= h < CellHeight(s, b)
    ensures OfSides(hot, w, h) && Inside(b, hot) && !AlwaysReported(s, b, hot)
  {
    var n := CalmLevels(s, b);
    hide Cell, Side, CalmLevels, AvoidsEnds, AvoidsMiddles, AlwaysReported, ProbesPerBox;
    var a := FitsBetweenEnds(b.minLon, b.maxLon, n, w);
    var e := FitsBetweenMiddles(b.minLat, b.maxLat, n, h);
    hot := BBox(a, e, a + w, e + h);
    ClearIsMissed(s, b, hot);
  }

  // ----- exactly how wide a hot area must be -----------------------------------------------------------

  /** Every hot rectangle with these sides that touches the box is reported. */
  ghost predicate TouchingAreFound(s: Settings, b: BBox, w: real, h: real) {
    forall hot :: OfSides(hot, w, h) && Touches(b, hot) ==> AlwaysReported(s, b, hot)
  }

  /** Every hot rectangle with these sides that lies in the box is reported. */
  ghost predicate InsideAreFound(s: Settings, b: BBox, w: real, h: real) {
    forall hot :: OfSides(hot, w, h) && Inside(b, hot) ==> AlwaysReported(s, b, hot)
  }

  /** Touching rectangles are found if and only if all corners are probed and no side is shorter than a cell's. */
  lemma TouchingHotspotsAreFound(s: Settings, b: BBox, w: real, h: real)
    requires Proper(b) && 0.0 <= w && 0.0 <= h
    ensures TouchingAreFound(s, b, w, h) <==> 4 <= ProbesPerBox(s) && CellWidth(s, b) <= w && CellHeight(s, b) <= h
  {
    hide CellWidth, CellHeight, AlwaysReported, ProbesPerBox, Proper;
    if ProbesPerBox(s) < 4 {
      var hot := UpperRightIsMissed(s, b, w, h);
    } else if w < CellWidth(s, b) || h < CellHeight(s, b) {
      var hot := NarrowTouchingIsMissed(s, b, w, h);
    } else {
      forall hot | OfSides(hot, w, h) && Touches(b, hot) ensures AlwaysReported(s, b, hot) {
        WideTouchingIsReported(s, b, hot);
      }
    }
  }

  /** What the sides of a rectangle inside the box must be for it to be found wherever it lies. */
  predicate WideEnough(s: Settings, b: BBox, w: real, h: real) {
    var wide, high := CellWidth(s, b) <= w, CellHeight(s, b) <= h;
    && 1 <= ProbesPerBox(s)
    && if ProbesPerBox(s) < 5 then wide && high
       else CellWidth(s, b) / 2.0 <= w && CellHeight(s, b) / 2.0 <= h && (wide || high || CalmLevels(s, b) == 0)
  }

  lemma NotWideEnoughIsMissed(s: Settings, b: BBox, w: real, h: real) returns (hot: BBox)
    requires Proper(b) && 0.0 <= w <= b.Width() && 0.0 <= h <= b.Height() && !WideEnough(s, b, w, h)
    ensures OfSides(hot, w, h) && Inside(b, hot) && !AlwaysReported(s, b, hot)
  {
    hide CellWidth, CellHeight, AlwaysReported, ProbesPerBox, CalmLevels, Proper, Inside, OfSides;
    if ProbesPerBox(s) < 1 {
      hot := UnprobedInsideIsMissed(s, b, w, h);
    } else if ProbesPerBox(s) < 5 {
      hot := NarrowInsideIsMissed(s, b, w, h);
    } else if w < CellWidth(s, b) / 2.0 || h < CellHeight(s, b) / 2.0 {
      hot := HalfNarrowIsMissed(s, b, w, h);
    } else {
      hot := NarrowBothWaysIsMissed(s, b, w, h);
    }
  }

  /**
   Rectangles in the box are found if and only if no side is shorter than a cell's, or, with
   the centre probed as well, than half a cell's with one side as long as a whole one.
   */
  lemma InsideHotspotsAreFound(s: Settings, b: BBox, w: real, h: real)
    requires Proper(b) && 0.0 <= w <= b.Width() && 0.0 <= h <= b.Height()
    ensures InsideAreFound(s, b, w, h) <==> WideEnough(s, b, w, h)
  {
    if WideEnough(s, b, w, h) {
      forall hot | OfSides(hot, w, h) && Inside(b, hot) ensures AlwaysReported(s, b, hot) {
        WideEnoughIsReported(s, b, hot);
      }
    } else {
      var hot := NotWideEnoughIsMissed(s, b, w, h);
    }
  }

  lemma WideEnoughIsReported(s: Settings, b: BBox, hot: BBox)
    requires Proper(b) && Inside(b, hot) && WideEnough(s, b, hot.Width(), hot.Height())
    ensures AlwaysReported(s, b, hot)
  {
    ProbesAtMostFive(s);
    hide CellWidth, CellHeight, AlwaysReported, ProbesPerBox, CalmLevels, Proper, Inside;
    if ProbesPerBox(s) < 5 {
      WideInsideIsReported(s, b, hot);
    } else {
      HalfCellIsReported(s, b, hot);
    }
  }

  lemma ProbesAtMostFive(s: Settings)
    ensures ProbesPerBox(s) <= 5
  {
  }

  /** The quadtree's promise about hot areas no narrower than a leaf, for those in the box. */
  lemma LeafWideHotspotsAreFound(s: Settings, b: BBox)
    requires Proper(b) && 0.0 <= s.leafSize <= b.Width() && s.leafSize <= b.Height()
    ensures WideEnough(s, b, s.leafSize, s.leafSize) <==>
              forall w, h :: s.leafSize <= w <= b.Width() && s.leafSize <= h <= b.Height() ==>
                InsideAreFound(s, b, w, h)
  {
    InsideHotspotsAreFound(s, b, s.leafSize, s.leafSize);
    hide ProbesPerBox, CalmLevels, CellWidth, CellHeight, InsideAreFound, Proper;
    if WideEnough(s, b, s.leafSize, s.leafSize) {
      forall w, h | s.leafSize <= w <= b.Width() && s.leafSize <= h <= b.Height() ensures InsideAreFound(s, b, w, h) {
        InsideHotspotsAreFound(s, b, w, h);
      }
    }
  }

  // ----- the default settings ------------------------------------------------------------------------------

  function Defaults(): Settings {
    Settings((lon: real, lat: real) => None, 8, 2, 0.02, 6.0, 60.0, 5)
  }

  /** A calm sweep of any larger box stops two levels down. */
  lemma DefaultsStopEarly(b: BBox)
    requires 0.04 < b.Width() || 0.04 < b.Height()
    ensures CalmLevels(Defaults(), b) == 2
  {
    var s, w, h := Defaults(), b.Width(), b.Height();
    assert Levels(s, w / 2.0 / 2.0, h / 2.0 / 2.0, 2) == 0;
    assert Levels(s, w / 2.0, h / 2.0, 1) == 1 + Levels(s, w / 2.0 / 2.0, h / 2.0 / 2.0, 2);
  }

  lemma SideOfTwo(length: real)
    ensures Side(length, 2) == length / 4.0
  {
    assert Side(length / 2.0, 1) == Side(length / 2.0 / 2.0, 0);
  }

  /** By default a hot area is safe from oversight at an eighth of the box, and a quarter one way. */
  lemma DefaultHotspotsAreFound(b: BBox, w: real, h: real)
    requires Proper(b) && 0.0 <= w <= b.Width() && 0.0 <= h <= b.Height() && (0.04 < b.Width() || 0.04 < b.Height())
    ensures InsideAreFound(Defaults(), b, w, h) <==>
              && b.Width() / 8.0 <= w && b.Height() / 8.0 <= h && (b.Width() / 4.0 <= w || b.Height() / 4.0 <= h)
  {
    InsideHotspotsAreFound(Defaults(), b, w, h);
    DefaultsStopEarly(b);
    SideOfTwo(b.Width());
    SideOfTwo(b.Height());
    hide InsideAreFound, Levels, Side;
  }

  lemma BetweenQuarters()
    ensures AvoidsEnds(0.0, 16.0, 2, 1.0, 1.5) && AvoidsMiddles(0.0, 16.0, 2, 1.0, 1.5)
  {
    SideOfTwo(16.0);
    hide Cell, Side;
    forall c, d | Cell(0.0, 16.0, 2, c, d)
      ensures !(1.0 <= c <= 1.5) && !(1.0 <= d <= 1.5) && !(1.0 <= (c + d) / 2.0 <= 1.5)
    {
      NearLowEnd(0.0, 16.0, 2, c, d);
    }
  }

  lemma SquareIsMissed(b: BBox, hot: BBox)
    requires b == BBox(0.0, 0.0, 16.0, 16.0) && hot == BBox(1.0, 1.0, 1.5, 1.5)
    ensures !AlwaysReported(Defaults(), b, hot)
  {
    hide AvoidsEnds, AvoidsMiddles, CalmLevels, AlwaysReported, ProbesPerBox, Defaults;
    DefaultsStopEarly(b);
    BetweenQuarters();
    ClearIsMissed(Defaults(), b, hot);
  }

  /** A hot square twenty-five leaves wide, inside the box, that the sweep may not report. */
  lemma LeafWideHotspotCanBeMissed()
    ensures var s, b, hot := Defaults(), BBox(0.0, 0.0, 16.0, 16.0), BBox(1.0, 1.0, 1.5, 1.5);
            && Inside(b, hot) && OfSides(hot, 25.0 * s.leafSize, 25.0 * s.leafSize) && !AlwaysReported(s, b, hot)
  {
    hide AlwaysReported;
    SquareIsMissed(BBox(0.0, 0.0, 16.0, 16.0), BBox(1.0, 1.0, 1.5, 1.5));
  }

  // ----- surfaces with gaps --------------------------------------------------------------------------------

  /** At or above the escalation threshold on all of `hot`, and perhaps unknown elsewhere. */
  ghost predicate KnownOn(s: Settings, f: (real, real) -> Option<real>, hot: BBox) {
    forall lon, lat :: InHot(hot, (lon, lat)) ==> f(lon, lat).Some? && s.escalateAbove <= f(lon, lat).value
  }

  ghost predicate AlwaysReportedDespiteGaps(s: Settings, b: BBox, hot: BBox) {
    forall f :: KnownOn(s, f, hot) ==> Reported(s, Analyse(s.(sampler := f), b, 0))
  }

  /** Known on `hot` alone. */
  function Island(s: Settings, hot: BBox): (real, real) -> Option<real> {
    (lon: real, lat: real) => if InHot(hot, (lon, lat)) then Some(s.escalateAbove) else None
  }

  lemma IslandIsKnown(s: Settings, hot: BBox)
    ensures KnownOn(s, Island(s, hot), hot)
  {
  }

  lemma {:induction false} NothingRead(f: (real, real) -> Option<real>, pts: seq<(real, real)>)
    requires forall p :: p in pts ==> f(p.0, p.1) == None
    ensures Read(f, pts) == []
  {
    if pts != [] {
      var init, last := pts[..|pts| - 1], pts[|pts| - 1];
      assert last in pts && forall p :: p in init ==> p in pts;
      NothingRead(f, init);
    }
  }

  lemma IslandIsMissed(s: Settings, b: BBox, hot: BBox)
    requires forall p :: p in Points(s, b) ==> !InHot(hot, p)
    ensures !Reported(s, Analyse(s.(sampler := Island(s, hot)), b, 0))
  {
    NothingRead(Island(s, hot), Points(s, b));
    hide Read, Probes, Slice, Uniform, Combine;
  }

  lemma GapsMiss(s: Settings, b: BBox, hot: BBox, f: (real, real) -> Option<real>)
    requires KnownOn(s, f, hot) && !Reported(s, Analyse(s.(sampler := f), b, 0))
    ensures !AlwaysReportedDespiteGaps(s, b, hot)
  {
    hide KnownOn, Reported, Analyse;
  }

  lemma OwnProbeIsReported(s: Settings, b: BBox, hot: BBox, f: (real, real) -> Option<real>, p: (real, real))
    requires KnownOn(s, f, hot) && p in Points(s, b) && InHot(hot, p)
    ensures Reported(s, Analyse(s.(sampler := f), b, 0))
  {
    var t, x := s.(sampler := f), RiskAt(f, p);
    assert f(p.0, p.1).Some? && s.escalateAbove <= x.risk;
    ReadMembers(f, Points(s, b), x);
    assert x in Samples(t, b);
    hide KnownOn, InHot, Points, Samples, Read, Analyse, LeafSamples, Totals, RiskAt;
    SampleReachesLeaf(t, b, 0, x);
    AnalyseSumsUpLeaves(t, b, 0);
  }

  /**
   The sweep stops where none of its probes is known. With gaps elsewhere a hot area is reported
   whatever the surface if and only if it holds a probe of the whole box, however wide it is.
   */
  lemma ReportedDespiteGapsExactly(s: Settings, b: BBox, hot: BBox)
    ensures AlwaysReportedDespiteGaps(s, b, hot) <==> exists p :: p in Points(s, b) && InHot(hot, p)
  {
    hide Points, Analyse, KnownOn, InHot, Reported, Island;
    if p :| p in Points(s, b) && InHot(hot, p) {
      forall f | KnownOn(s, f, hot) ensures Reported(s, Analyse(s.(sampler := f), b, 0)) {
        OwnProbeIsReported(s, b, hot, f, p);
      }
    } else {
      IslandIsMissed(s, b, hot);
      IslandIsKnown(s, hot);
      GapsMiss(s, b, hot, Island(s, hot));
    }
  }
}
