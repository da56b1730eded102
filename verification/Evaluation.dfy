/**
 The figures that backend/app/evacuation/optimizer.py reports about a plan, and when its
 "unconstrained lower bound" really is one.
 */
module Evaluation {
  import opened Books
  import opened Overlay
  import opened Paths
  import opened Wrappers
  import RoadGraphs

  function Weigh(people: int, minutes: real): real {
    people as real * minutes
  }

  function Cost(a: Assignment): real {
    Weigh(a.people, a.travelTimeS / 60.0)
  }

  function PersonMinutes(xs: seq<Assignment>): real {
    if xs == [] then 0.0 else PersonMinutes(xs[..|xs| - 1]) + Cost(xs[|xs| - 1])
  }

  function Noted(best: map<string, real>, cell: string, t: real): map<string, real> {
    best[cell := if cell in best && best[cell] < t then best[cell] else t]
  }

  /** The shortest travel time, in minutes, of anyone placed from each cell. */
  function BestByZone(xs: seq<Assignment>): map<string, real> {
    if xs == [] then map[]
    else Noted(BestByZone(xs[..|xs| - 1]), xs[|xs| - 1].cellId, xs[|xs| - 1].travelTimeS / 60.0)
  }

  /** Person-minutes of `people` of a zone at its best time. */
  function Charge(z: Zone, people: int, best: map<string, real>): real {
    if z.cellId in best then Weigh(people, best[z.cellId]) else 0.0
  }

  function Bound(zones: seq<Zone>, best: map<string, real>): real {
    if zones == [] then 0.0
    else
      var z := zones[|zones| - 1];
      Bound(zones[..|zones| - 1], best) + Charge(z, z.people, best)
  }

  function Late(xs: seq<Assignment>): nat {
    if xs == [] then 0 else Late(xs[..|xs| - 1]) + if xs[|xs| - 1].beforeImpact == Some(false) then 1 else 0
  }

  function TotalTime(xs: seq<Assignment>): real {
    if xs == [] then 0.0 else TotalTime(xs[..|xs| - 1]) + xs[|xs| - 1].travelTimeS
  }

  /** `t` is the longest travel time in `xs`, or nought if nobody travels. */
  ghost predicate Longest(xs: seq<Assignment>, t: real) {
    && (forall i :: 0 <= i < |xs| ==> xs[i].travelTimeS <= t)
    && if xs == [] then t == 0.0 else exists i :: 0 <= i < |xs| && xs[i].travelTimeS == t
  }

  datatype Figures = Figures(personMinutes: real, lowerBound: real, gapPct: real, meanMinutes: real, maxMinutes: real)

  ghost predicate AreFigures(xs: seq<Assignment>, zones: seq<Zone>, f: Figures) {
    && f.personMinutes == PersonMinutes(xs) && f.lowerBound == Bound(zones, BestByZone(xs))
    && (if f.lowerBound == 0.0 then f.gapPct == 0.0
        else f.personMinutes == f.lowerBound + f.gapPct * f.lowerBound / 100.0)
    && Longest(xs, f.maxMinutes * 60.0)
    && if xs == [] then f.meanMinutes == 0.0 else f.meanMinutes * 60.0 * |xs| as real == TotalTime(xs)
  }

  /** What is displayed: times in tenths of a minute, the gap in hundredths of a percent. */
  datatype Stats = Stats(zones: nat, assignments: nat, routes: nat, personMinutes: int, lowerBound: int, gapPct: int,
                         meanMinutes: int, maxMinutes: int, late: nat)

  /** `shown` is `x`, in units of which `per` make one, to the nearest. */
  predicate Nearest(shown: int, x: real, per: real) {
    -0.5 <= shown as real - x * per <= 0.5
  }

  /** The figures of the assignments alone: minutes, best times, total and longest time, late arrivals. */
  method Accumulate(xs: seq<Assignment>)
    returns (minutes: real, best: map<string, real>, total: real, longest: real, late: nat)
    ensures minutes == PersonMinutes(xs) && best == BestByZone(xs) && total == TotalTime(xs) && late == Late(xs)
    ensures Longest(xs, longest)
  {
    minutes, best, total, longest, late := 0.0, map[], 0.0, 0.0, 0;
    NobodyTravels();
    hide Longest, Cost, Noted, PersonMinutes, BestByZone, TotalTime, Late;
    for i := 0 to |xs|
      invariant minutes == PersonMinutes(xs[..i]) && best == BestByZone(xs[..i])
      invariant total == TotalTime(xs[..i]) && late == Late(xs[..i]) && Longest(xs[..i], longest)
    {
      var a := xs[i];
      OneMore(xs[..i], a);
      LongestSoFar(xs[..i], a, longest);
      assert xs[..i + 1] == xs[..i] + [a];
      minutes := minutes + Cost(a);
      best := Noted(best, a.cellId, a.travelTimeS / 60.0);
      total := total + a.travelTimeS;
      longest := if i == 0 || longest < a.travelTimeS then a.travelTimeS else longest;
      late := late + if a.beforeImpact == Some(false) then 1 else 0;
    }
    assert xs[..|xs|] == xs;
  }

  lemma NobodyTravels()
    ensures Longest([], 0.0) && PersonMinutes([]) == 0.0 && BestByZone([]) == map[]
    ensures TotalTime([]) == 0.0 && Late([]) == 0
  {
  }

  lemma OneMore(xs: seq<Assignment>, a: Assignment)
    ensures PersonMinutes(xs + [a]) == PersonMinutes(xs) + Cost(a)
    ensures BestByZone(xs + [a]) == Noted(BestByZone(xs), a.cellId, a.travelTimeS / 60.0)
    ensures TotalTime(xs + [a]) == TotalTime(xs) + a.travelTimeS
    ensures Late(xs + [a]) == Late(xs) + if a.beforeImpact == Some(false) then 1 else 0
  {
    hide Cost, Noted;
    assert (xs + [a])[..|xs|] == xs;
  }

  lemma LongestSoFar(xs: seq<Assignment>, a: Assignment, t: real)
    requires Longest(xs, t)
    ensures Longest(xs + [a], if xs == [] || t < a.travelTimeS then a.travelTimeS else t)
  {
    var ys := xs + [a];
    assert ys[|xs|] == a;
    if xs != [] {
      var i :| 0 <= i < |xs| && xs[i].travelTimeS == t;
      assert ys[i] == xs[i];
    }
  }

  method Charges(zones: seq<Zone>, best: map<string, real>) returns (lower: real)
    ensures lower == Bound(zones, best)
  {
    lower := 0.0;
    for i := 0 to |zones|
      invariant lower == Bound(zones[..i], best)
    {
      assert zones[..i + 1][..i] == zones[..i];
      lower := lower + Charge(zones[i], zones[i].people, best);
    }
    assert zones[..|zones|] == zones;
  }

  /** The figures of a finished plan, before they are rounded for display. */
  method Measure(xs: seq<Assignment>, zones: seq<Zone>) returns (f: Figures, late: nat)
    ensures AreFigures(xs, zones, f) && late == Late(xs)
  {
    hide PersonMinutes, BestByZone, Bound, TotalTime, Late, Longest;
    var minutes, best, total, longest, count := Accumulate(xs);
    var lower := Charges(zones, best);
    var gap := if lower != 0.0 then (minutes - lower) / lower * 100.0 else 0.0;
    Percent(minutes, lower);
    NobodyTravels();
    var n := if |xs| < 1 then 1 else |xs|;
    Mean(total, n);
    f, late := Figures(minutes, lower, gap, total / 60.0 / n as real, longest / 60.0), count;
  }

  /** The figures as they are displayed; the number of searches is handed on. */
  method Evaluate(xs: seq<Assignment>, zones: seq<Zone>, routes: nat, round: real -> int)
    returns (s: Stats, ghost f: Figures)
    requires Rounds(round)
    ensures AreFigures(xs, zones, f)
    ensures s.zones == |zones| && s.assignments == |xs| && s.routes == routes && s.late == Late(xs)
    ensures Nearest(s.personMinutes, f.personMinutes, 10.0) && Nearest(s.lowerBound, f.lowerBound, 10.0)
    ensures Nearest(s.gapPct, f.gapPct, 100.0)
    ensures Nearest(s.meanMinutes, f.meanMinutes, 10.0) && Nearest(s.maxMinutes, f.maxMinutes, 10.0)
  {
    hide AreFigures, Late;
    var exact, late := Measure(xs, zones);
    f := exact;
    s := Stats(|zones|, |xs|, routes, round(exact.personMinutes * 10.0), round(exact.lowerBound * 10.0),
               round(exact.gapPct * 100.0), round(exact.meanMinutes * 10.0), round(exact.maxMinutes * 10.0), late);
  }

  lemma Mean(total: real, n: nat)
    requires n > 0
    ensures total / 60.0 / n as real * 60.0 * n as real == total
    ensures total == 0.0 ==> total / 60.0 / n as real == 0.0
  {
    var q := total / 60.0 / n as real;
    assert q * n as real == total / 60.0;
    assert q * 60.0 * n as real == 60.0 * (q * n as real);
  }

  lemma Percent(total: real, lower: real)
    ensures lower != 0.0 ==> total == lower + (total - lower) / lower * 100.0 * lower / 100.0
  {
    if lower != 0.0 {
      var q := (total - lower) / lower;
      assert q * lower == total - lower;
      assert q * 100.0 * lower == 100.0 * (q * lower);
    }
  }

  // ----- the bound ----------------------------------------------------------------------------

  ghost predicate Sensible(xs: seq<Assignment>) {
    forall i :: 0 <= i < |xs| ==> 0 <= xs[i].people && 0.0 <= xs[i].travelTimeS
  }

  ghost predicate Distinct(zones: seq<Zone>) {
    forall i, j :: 0 <= i < j < |zones| ==> zones[i].cellId != zones[j].cellId
  }

  /** Nobody of `cell` travels for less than `best` minutes. */
  ghost predicate NoneSooner(xs: seq<Assignment>, cell: string, best: real) {
    forall i :: 0 <= i < |xs| && xs[i].cellId == cell ==> best <= xs[i].travelTimeS / 60.0
  }

  predicate Serves(xs: seq<Assignment>, cell: string) {
    exists i :: 0 <= i < |xs| && xs[i].cellId == cell
  }

  /** The person-minutes of one cell. */
  function CellMinutes(xs: seq<Assignment>, cell: string): real {
    if xs == [] then 0.0
    else CellMinutes(xs[..|xs| - 1], cell) + if xs[|xs| - 1].cellId == cell then Cost(xs[|xs| - 1]) else 0.0
  }

  lemma CostAtLeast(a: Assignment, best: real)
    requires 0 <= a.people && best <= a.travelTimeS / 60.0
    ensures Weigh(a.people, best) <= Cost(a)
  {
    assert 0.0 <= a.people as real * (a.travelTimeS / 60.0 - best);
  }

  lemma ServesOneMore(init: seq<Assignment>, last: Assignment, cell: string)
    ensures Serves(init + [last], cell) <==> Serves(init, cell) || last.cellId == cell
  {
    var xs := init + [last];
    assert xs[|init|] == last && forall i :: 0 <= i < |init| ==> xs[i] == init[i];
  }

  lemma {:induction false} BestIsBest(xs: seq<Assignment>, cell: string)
    ensures cell in BestByZone(xs) <==> Serves(xs, cell)
    ensures cell in BestByZone(xs) ==> NoneSooner(xs, cell, BestByZone(xs)[cell])
  {
    if xs != [] {
      var init, last := xs[..|xs| - 1], xs[|xs| - 1];
      BestIsBest(init, cell);
      assert xs == init + [last];
      ServesOneMore(init, last, cell);
    }
  }

  lemma {:induction false} CellAtLeastBest(xs: seq<Assignment>, cell: string, best: real)
    requires Sensible(xs) && NoneSooner(xs, cell, best)
    ensures Weigh(PeopleFrom(xs, cell), best) <= CellMinutes(xs, cell)
  {
    hide PeopleFrom, CellMinutes, Weigh;
    if xs == [] {
      NobodyFrom(cell);
      WeighNobody(best);
    } else {
      var init, last := xs[..|xs| - 1], xs[|xs| - 1];
      CellAtLeastBest(init, cell, best);
      CellOneMore(init, last, cell, best);
      assert xs == init + [last];
    }
  }

  lemma NobodyFrom(cell: string)
    ensures PeopleFrom([], cell) == 0 && CellMinutes([], cell) == 0.0
  {
  }

  lemma CellOneMore(init: seq<Assignment>, last: Assignment, cell: string, best: real)
    requires Weigh(PeopleFrom(init, cell), best) <= CellMinutes(init, cell)
    requires last.cellId == cell ==> 0 <= last.people && best <= last.travelTimeS / 60.0
    ensures Weigh(PeopleFrom(init + [last], cell), best) <= CellMinutes(init + [last], cell)
  {
    hide Cost, Weigh;
    assert (init + [last])[..|init|] == init;
    if last.cellId == cell {
      CostAtLeast(last, best);
      WeighTogether(PeopleFrom(init, cell), last.people, best);
    }
  }

  lemma WeighTogether(a: int, b: int, t: real)
    ensures Weigh(a + b, t) == Weigh(a, t) + Weigh(b, t)
  {
  }

  lemma WeighNobody(t: real)
    ensures Weigh(0, t) == 0.0
  {
  }

  function AllCells(xs: seq<Assignment>, zones: seq<Zone>): real {
    if zones == [] then 0.0 else AllCells(xs, zones[..|zones| - 1]) + CellMinutes(xs, zones[|zones| - 1].cellId)
  }

  predicate Listed(zones: seq<Zone>, cell: string) {
    exists z :: z in zones && z.cellId == cell
  }

  /** One more assignment adds its cost to the sum over the cells at most once. */
  lemma {:induction false} OneMoreAssignment(xs: seq<Assignment>, a: Assignment, zones: seq<Zone>)
    requires Distinct(zones) && 0.0 <= Cost(a)
    ensures AllCells(xs + [a], zones) == AllCells(xs, zones) + if Listed(zones, a.cellId) then Cost(a) else 0.0
  {
    assert (xs + [a])[..|xs|] == xs;
    if zones != [] {
      var init, last := zones[..|zones| - 1], zones[|zones| - 1];
      OneMoreAssignment(xs, a, init);
      assert zones == init + [last];
      if last.cellId == a.cellId {
        assert !Listed(init, a.cellId);
        assert last in zones;
      }
    }
  }

  lemma CostNonNegative(a: Assignment)
    requires 0 <= a.people && 0.0 <= a.travelTimeS
    ensures 0.0 <= Cost(a)
  {
  }

  lemma {:induction false} NoCells(zones: seq<Zone>)
    ensures AllCells([], zones) == 0.0
  {
    if zones != [] {
      NoCells(zones[..|zones| - 1]);
    }
  }

  lemma {:induction false} CellsAtMostAll(xs: seq<Assignment>, zones: seq<Zone>)
    requires Sensible(xs) && Distinct(zones)
    ensures AllCells(xs, zones) <= PersonMinutes(xs)
  {
    if xs == [] {
      NoCells(zones);
    } else {
      var init, last := xs[..|xs| - 1], xs[|xs| - 1];
      assert xs == init + [last];
      CellsAtMostAll(init, zones);
      CostNonNegative(last);
      OneMoreAssignment(init, last, zones);
    }
  }

  /** The minutes the bound charges for people the plan has not placed. */
  function Overcharge(xs: seq<Assignment>, zones: seq<Zone>, best: map<string, real>): real {
    if zones == [] then 0.0
    else
      var z := zones[|zones| - 1];
      Overcharge(xs, zones[..|zones| - 1], best)
      + Charge(z, z.people - PeopleFrom(xs, z.cellId), best)
  }

  lemma {:induction false} NoneFrom(xs: seq<Assignment>, cell: string)
    requires forall i :: 0 <= i < |xs| ==> xs[i].cellId != cell
    ensures CellMinutes(xs, cell) == 0.0
  {
    if xs != [] {
      NoneFrom(xs[..|xs| - 1], cell);
    }
  }

  lemma OneZone(xs: seq<Assignment>, z: Zone)
    requires Sensible(xs)
    ensures var best := BestByZone(xs);
            Charge(z, z.people, best)
              <= CellMinutes(xs, z.cellId) + Charge(z, z.people - PeopleFrom(xs, z.cellId), best)
  {
    var best := BestByZone(xs);
    BestIsBest(xs, z.cellId);
    hide BestByZone, Sensible, PeopleFrom, CellMinutes, Weigh;
    if z.cellId in best {
      CellAtLeastBest(xs, z.cellId, best[z.cellId]);
      var placed := PeopleFrom(xs, z.cellId);
      WeighTogether(z.people - placed, placed, best[z.cellId]);
    } else {
      NoneFrom(xs, z.cellId);
    }
  }

  lemma {:induction false} BoundByCells(xs: seq<Assignment>, zones: seq<Zone>)
    requires Sensible(xs)
    ensures Bound(zones, BestByZone(xs)) <= AllCells(xs, zones) + Overcharge(xs, zones, BestByZone(xs))
  {
    hide BestByZone, Sensible, PeopleFrom, CellMinutes, Charge;
    if zones != [] {
      BoundByCells(xs, zones[..|zones| - 1]);
      OneZone(xs, zones[|zones| - 1]);
    }
  }

  /** The reported bound exceeds the actual total by no more than it charges for people not placed. */
  lemma BoundHolds(xs: seq<Assignment>, zones: seq<Zone>)
    requires Sensible(xs) && Distinct(zones)
    ensures Bound(zones, BestByZone(xs)) <= PersonMinutes(xs) + Overcharge(xs, zones, BestByZone(xs))
  {
    CellsAtMostAll(xs, zones);
    BoundByCells(xs, zones);
  }

  // ----- exactly when it is a lower bound --------------------------------------------------------

  /** The same assignments with other travel times. */
  function Retimed(xs: seq<Assignment>, times: seq<real>): seq<Assignment>
    requires |times| == |xs|
  {
    seq(|xs|, i requires 0 <= i < |xs| => xs[i].(travelTimeS := times[i]))
  }

  ghost predicate Times(xs: seq<Assignment>, times: seq<real>) {
    |times| == |xs| && forall i :: 0 <= i < |times| ==> 0.0 <= times[i]
  }

  /** The reported bound is one whatever the assigned routes take. */
  ghost predicate AlwaysLower(xs: seq<Assignment>, zones: seq<Zone>) {
    forall times :: Times(xs, times) ==>
      Bound(zones, BestByZone(Retimed(xs, times))) <= PersonMinutes(Retimed(xs, times))
  }

  /** No cell that is served at all has more people than were placed from it. */
  ghost predicate ServedInFull(xs: seq<Assignment>, zones: seq<Zone>) {
    forall i :: 0 <= i < |xs| ==> Living(zones, xs[i].cellId) <= PeopleFrom(xs, xs[i].cellId)
  }

  function Elsewhere(xs: seq<Assignment>, cell: string): seq<Assignment> {
    if xs == [] then []
    else Elsewhere(xs[..|xs| - 1], cell) + if xs[|xs| - 1].cellId == cell then [] else [xs[|xs| - 1]]
  }

  lemma OneMoreFrom(xs: seq<Assignment>, a: Assignment, c: string)
    ensures PeopleFrom(xs + [a], c) == PeopleFrom(xs, c) + if a.cellId == c then a.people else 0
  {
    assert (xs + [a])[..|xs|] == xs;
  }

  lemma {:induction false} ElsewhereMembers(xs: seq<Assignment>, cell: string)
    ensures forall i :: 0 <= i < |Elsewhere(xs, cell)| ==>
      Elsewhere(xs, cell)[i].cellId != cell && Elsewhere(xs, cell)[i] in xs
    ensures |Elsewhere(xs, cell)| <= |xs| && (xs != [] && xs[|xs| - 1].cellId == cell ==> |Elsewhere(xs, cell)| < |xs|)
  {
    if xs != [] {
      var init, last := xs[..|xs| - 1], xs[|xs| - 1];
      ElsewhereMembers(init, cell);
      assert xs == init + [last];
    }
  }

  lemma {:induction false} ElsewhereMinutes(xs: seq<Assignment>, cell: string)
    ensures PersonMinutes(xs) == CellMinutes(xs, cell) + PersonMinutes(Elsewhere(xs, cell))
  {
    hide Cost;
    if xs != [] {
      ElsewhereMinutes(xs[..|xs| - 1], cell);
      OneMore(Elsewhere(xs[..|xs| - 1], cell), xs[|xs| - 1]);
      assert Elsewhere(xs[..|xs| - 1], cell) + [] == Elsewhere(xs[..|xs| - 1], cell);
    }
  }

  lemma {:induction false} ElsewherePeople(xs: seq<Assignment>, cell: string, c: string)
    ensures PeopleFrom(Elsewhere(xs, cell), c) == if c == cell then 0 else PeopleFrom(xs, c)
  {
    if xs != [] {
      var init, last := xs[..|xs| - 1], xs[|xs| - 1];
      var rest := Elsewhere(init, cell);
      ElsewherePeople(init, cell, c);
      OneMoreFrom(rest, last, c);
      assert Elsewhere(xs, cell) == if last.cellId == cell then rest else rest + [last];
      assert PeopleFrom(xs, c) == PeopleFrom(init, c) + if last.cellId == c then last.people else 0;
      hide PeopleFrom, Elsewhere;
    }
  }

  lemma NotedElsewhere(best: map<string, real>, cell: string, c: string, t: real)
    ensures Noted(best, c, t) - {cell} == if c == cell then best - {cell} else Noted(best - {cell}, c, t)
  {
  }

  lemma {:induction false} ElsewhereBest(xs: seq<Assignment>, cell: string)
    ensures BestByZone(Elsewhere(xs, cell)) == BestByZone(xs) - {cell}
  {
    hide Noted, BestByZone, Elsewhere, Cost;
    if xs == [] {
      ElsewhereOfNone(cell);
    } else {
      var init, last := xs[..|xs| - 1], xs[|xs| - 1];
      assert xs == init + [last];
      ElsewhereBest(init, cell);
      ElsewhereOneMore(init, last, cell);
      OneMore(init, last);
      OneMore(Elsewhere(init, cell), last);
      NotedElsewhere(BestByZone(init), cell, last.cellId, last.travelTimeS / 60.0);
    }
  }

  lemma ElsewhereOfNone(cell: string)
    ensures BestByZone([]) - {cell} == map[] && BestByZone(Elsewhere([], cell)) == map[]
  {
  }

  lemma ElsewhereOneMore(init: seq<Assignment>, last: Assignment, cell: string)
    ensures Elsewhere(init + [last], cell)
         == if last.cellId == cell then Elsewhere(init, cell) else Elsewhere(init, cell) + [last]
  {
    assert (init + [last])[..|init|] == init;
  }

  lemma {:induction false} BoundSplits(zones: seq<Zone>, best: map<string, real>, cell: string)
    requires cell in best
    ensures Bound(zones, best) == Weigh(Living(zones, cell), best[cell]) + Bound(zones, best - {cell})
  {
    hide Weigh;
    if zones == [] {
      WeighNobody(best[cell]);
    } else {
      var init, z := zones[..|zones| - 1], zones[|zones| - 1];
      BoundSplits(init, best, cell);
      WeighTogether(Living(init, cell), z.people, best[cell]);
    }
  }

  lemma {:induction false} NothingCharged(zones: seq<Zone>, best: map<string, real>)
    requires forall c :: c in best ==> best[c] == 0.0
    ensures Bound(zones, best) == 0.0
  {
    if zones != [] {
      NothingCharged(zones[..|zones| - 1], best);
    }
  }

  lemma TimesMonotone(m: int, n: int, t: real)
    requires m <= n && 0.0 <= t
    ensures Weigh(m, t) <= Weigh(n, t)
  {
    assert 0.0 <= (n - m) as real * t;
  }

  lemma {:induction false} BestNonNegative(xs: seq<Assignment>)
    requires Sensible(xs)
    ensures forall c :: c in BestByZone(xs) ==> 0.0 <= BestByZone(xs)[c]
  {
    if xs != [] {
      BestNonNegative(xs[..|xs| - 1]);
    }
  }

  lemma ElsewhereIsFull(xs: seq<Assignment>, zones: seq<Zone>, cell: string)
    requires Sensible(xs) && ServedInFull(xs, zones)
    ensures Sensible(Elsewhere(xs, cell)) && ServedInFull(Elsewhere(xs, cell), zones)
  {
    hide Elsewhere, PeopleFrom, Living;
    var rest := Elsewhere(xs, cell);
    ElsewhereMembers(xs, cell);
    forall i | 0 <= i < |rest|
      ensures 0 <= rest[i].people && 0.0 <= rest[i].travelTimeS
      ensures Living(zones, rest[i].cellId) <= PeopleFrom(rest, rest[i].cellId)
    {
      var j :| 0 <= j < |xs| && xs[j] == rest[i];
      ElsewherePeople(xs, cell, rest[i].cellId);
    }
  }

  lemma {:induction false} FullIsLower(xs: seq<Assignment>, zones: seq<Zone>)
    requires Sensible(xs) && ServedInFull(xs, zones)
    ensures Bound(zones, BestByZone(xs)) <= PersonMinutes(xs)
    decreases |xs|
  {
    hide BestByZone, CellMinutes, PersonMinutes, Living, PeopleFrom, Bound, Elsewhere, Weigh;
    if xs == [] {
      NobodyTravels();
      NothingCharged(zones, map[]);
    } else {
      var cell := xs[|xs| - 1].cellId;
      var best, rest := BestByZone(xs), Elsewhere(xs, cell);
      ElsewhereMembers(xs, cell);
      ElsewhereIsFull(xs, zones, cell);
      FullIsLower(rest, zones);
      ElsewhereMinutes(xs, cell);
      ElsewhereBest(xs, cell);
      BestIsBest(xs, cell);
      BestNonNegative(xs);
      BoundSplits(zones, best, cell);
      CellAtLeastBest(xs, cell, best[cell]);
      TimesMonotone(Living(zones, cell), PeopleFrom(xs, cell), best[cell]);
    }
  }

  lemma {:induction false} RetimedPeople(xs: seq<Assignment>, times: seq<real>, cell: string)
    requires |times| == |xs|
    ensures PeopleFrom(Retimed(xs, times), cell) == PeopleFrom(xs, cell)
  {
    if xs != [] {
      var n := |xs| - 1;
      RetimedPeople(xs[..n], times[..n], cell);
      assert Retimed(xs, times)[..n] == Retimed(xs[..n], times[..n]);
    }
  }

  /** A minute for `cell`, no time at all elsewhere. */
  function OnlyFor(xs: seq<Assignment>, cell: string): seq<real> {
    seq(|xs|, i requires 0 <= i < |xs| => if xs[i].cellId == cell then 60.0 else 0.0)
  }

  lemma {:induction false} OnlyForFigures(xs: seq<Assignment>, cell: string)
    ensures var ys := Retimed(xs, OnlyFor(xs, cell));
            && PersonMinutes(ys) == PeopleFrom(xs, cell) as real
            && (forall c :: c in BestByZone(ys) ==> BestByZone(ys)[c] == if c == cell then 1.0 else 0.0)
  {
    if xs != [] {
      var init, last := xs[..|xs| - 1], xs[|xs| - 1];
      OnlyForFigures(init, cell);
      var ys, zs := Retimed(xs, OnlyFor(xs, cell)), Retimed(init, OnlyFor(init, cell));
      assert Cost(ys[|init|]) == if last.cellId == cell then last.people as real else 0.0;
      hide Weigh;
      assert ys == zs + [ys[|init|]];
      OneMore(zs, ys[|init|]);
      hide PersonMinutes, BestByZone;
    }
  }

  lemma ShortServiceExceeds(xs: seq<Assignment>, zones: seq<Zone>, i: nat)
    requires i < |xs| && PeopleFrom(xs, xs[i].cellId) < Living(zones, xs[i].cellId)
    ensures !AlwaysLower(xs, zones)
  {
    hide PersonMinutes, BestByZone, Bound, PeopleFrom, Living;
    var cell, times := xs[i].cellId, OnlyFor(xs, xs[i].cellId);
    var ys := Retimed(xs, times);
    OnlyForFigures(xs, cell);
    BestIsBest(ys, cell);
    assert ys[i].cellId == cell;
    BoundSplits(zones, BestByZone(ys), cell);
    NothingCharged(zones, BestByZone(ys) - {cell});
    assert Times(xs, times);
  }

  /**
   The reported figure is a lower bound for all travel times if and only if no cell that
   is served at all has more people than were placed from it.
   */
  lemma BoundIsLowerExactly(xs: seq<Assignment>, zones: seq<Zone>)
    requires forall i :: 0 <= i < |xs| ==> 0 <= xs[i].people
    ensures AlwaysLower(xs, zones) <==> ServedInFull(xs, zones)
  {
    hide PersonMinutes, BestByZone, Bound, PeopleFrom, Living;
    if ServedInFull(xs, zones) {
      forall times | Times(xs, times)
        ensures Bound(zones, BestByZone(Retimed(xs, times))) <= PersonMinutes(Retimed(xs, times))
      {
        var ys := Retimed(xs, times);
        forall i | 0 <= i < |ys| ensures Living(zones, ys[i].cellId) <= PeopleFrom(ys, ys[i].cellId) {
          RetimedPeople(xs, times, xs[i].cellId);
        }
        FullIsLower(ys, zones);
      }
    } else {
      var i :| 0 <= i < |xs| && PeopleFrom(xs, xs[i].cellId) < Living(zones, xs[i].cellId);
      ShortServiceExceeds(xs, zones, i);
    }
  }

  /** In a plan that accounts for everyone: a lower bound if and only if nobody of a served cell is left. */
  lemma BoundIsLowerIfNobodyIsLeft(xs: seq<Assignment>, us: seq<Unassigned>, zones: seq<Zone>)
    requires forall i :: 0 <= i < |xs| ==> 0 <= xs[i].people
    requires forall c :: PeopleFrom(xs, c) + Unplaced(us, c) == Living(zones, c)
    ensures AlwaysLower(xs, zones) <==> forall i :: 0 <= i < |xs| ==> Unplaced(us, xs[i].cellId) <= 0
  {
    BoundIsLowerExactly(xs, zones);
    hide AlwaysLower, PeopleFrom, Unplaced, Living;
    forall i | 0 <= i < |xs|
      ensures Living(zones, xs[i].cellId) <= PeopleFrom(xs, xs[i].cellId) <==> Unplaced(us, xs[i].cellId) <= 0
    {
      assert PeopleFrom(xs, xs[i].cellId) + Unplaced(us, xs[i].cellId) == Living(zones, xs[i].cellId);
    }
  }

  // ----- a plan that reports more than it can cost --------------------------------------------------

  const ONLY_ROAD := Edge(7, 2, 60.0, 3.6, 400, [])

  /** One road, a minute long, from node 1 to node 2. */
  function OneRoad(): Live {
    Live(map[1 := [ONLY_ROAD], 2 := []], map[], map[], map[], map[], 3.0, 0.6, 3.6)
  }

  function HalfPlaced(): Assignment {
    Assignment("village", "school", "School", 5,
               Some(RoadGraphs.RouteResult(1, 2, [1, 2], [7], 60.0, 60.0, 0.0, RoadGraphs.DIJKSTRA, 2, None)),
               60.0, 60.0, 0.0, 1, None)
  }

  function HalfLeft(): Unassigned {
    Unassigned("village", 5, "shelter capacity within reach is exhausted", 1)
  }

  const VILLAGE := Zone("village", (30.0, 79.0), Some(1), 10, 1, None)

  const SCHOOLS := map["school" := Meta((30.0, 79.1), Some(2), 0.0)]

  lemma OnlyRoute()
    ensures RealRoute(OneRoad(), 1, 2, HalfPlaced().route.value)
    ensures WellFormed(OneRoad())
  {
    var p := [Hop(1, ONLY_ROAD)];
    assert p[..0] == [];
    assert IsPath(View(OneRoad()), 1, 1, []);
    assert ONLY_ROAD in Out(View(OneRoad()), 1);
    assert IsPath(View(OneRoad()), 1, 2, p);
    assert RoadGraphs.Length(p) == RoadGraphs.Length([]) + 60.0;
    assert Roads(p) == [7] && RoadGraphs.Nodes(p, 2) == [1, 2];
  }

  /**
   Ten people, a school with room for five, a minute away: the books balance and everyone is
   accounted for, yet the plan takes five person-minutes and reports a bound of ten.
   */
  lemma BoundCanExceedTotal()
    ensures var a := HalfPlaced();
            && Reserved(map["school" := 5], map["school" := 0], [a]) && Loaded(map["school" := 5], [a])
            && RoadsLoaded(OneRoad().(edgeLoad := map[7 := 5]), [a]) && AllServed(OneRoad(), [VILLAGE], SCHOOLS, [a])
            && (forall c :: PeopleFrom([a], c) + Unplaced([HalfLeft()], c) == Living([VILLAGE], c))
            && PersonMinutes([a]) == 5.0 && Bound([VILLAGE], BestByZone([a])) == 10.0
  {
    var a := HalfPlaced();
    SingleSums(a, HalfLeft(), VILLAGE);
    OnlyRoute();
    hide RealRoute;
    assert Served(OneRoad(), VILLAGE, SCHOOLS, a);
    HalfPlacedFigures();
    RoadOfOne();
  }

  lemma SingleSums(a: Assignment, u: Unassigned, z: Zone)
    ensures forall k :: PeopleTo([a], k) == if a.shelterId == k then a.people else 0
    ensures forall c :: PeopleFrom([a], c) == if a.cellId == c then a.people else 0
    ensures forall c :: Unplaced([u], c) == if u.cellId == c then u.people else 0
    ensures forall c :: Living([z], c) == if z.cellId == c then z.people else 0
  {
    assert [a][..0] == [] && [u][..0] == [] && [z][..0] == [];
  }

  lemma HalfPlacedFigures()
    ensures PersonMinutes([HalfPlaced()]) == 5.0 && Bound([VILLAGE], BestByZone([HalfPlaced()])) == 10.0
  {
    var a := HalfPlaced();
    assert [a][..0] == [] && [VILLAGE][..0] == [];
    assert BestByZone([a]) == map["village" := 1.0];
    assert Bound([VILLAGE][..0], BestByZone([a])) == 0.0;
  }

  lemma RoadOfOne()
    ensures RoadsLoaded(OneRoad().(edgeLoad := map[7 := 5]), [HalfPlaced()])
  {
    var a, o := HalfPlaced(), OneRoad().(edgeLoad := map[7 := 5]);
    assert [a][..0] == [];
    forall r ensures LoadOf(o, r) == RoadLoad([a], r) {
      assert [7][..0] == [];
      assert RoadGraphs.Occurrences([7], r) == if r == 7 then 1 else 0;
    }
  }
}
