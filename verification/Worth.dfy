/**
 What the score of backend/app/spatial/nearest.py makes of each factor, in minutes of travel, and
 what it comes to in the plan of backend/app/evacuation/optimizer.py: who is tried first.
 */
module Worth {
  import opened Wrappers
  import opened Books
  import opened Journal
  import opened Excuses
  import Shelters
  import Sorting

  type Candidate = Shelters.Candidate

  // ----- what each factor is worth ---------------------------------------------------------------

  /** A minute by road counts as one; the straight line counts, at three a kilometre, only without a travel time. */
  lemma TimeIsWorth(c: Candidate, seconds: real, metres: real, people: int)
    ensures c.travelTime.Some? ==>
              && Shelters.Score(c.(travelTime := Some(seconds)), people) - Shelters.Score(c, people)
                 == (seconds - c.travelTime.value) / 60.0
              && Shelters.Score(c.(straightLine := metres), people) == Shelters.Score(c, people)
    ensures c.travelTime.None? ==>
              Shelters.Score(c.(straightLine := metres), people) - Shelters.Score(c, people)
                == 3.0 * (metres - c.straightLine) / 1000.0
  {
  }

  /** A route through hazard all the way is worth twenty-five minutes more than one without. */
  lemma ExposureIsWorth(c: Candidate, exposure: real, people: int)
    ensures Shelters.Score(c.(routeHazard := Some(exposure)), people)
         == Shelters.Score(c.(routeHazard := None), people) + 25.0 * exposure
  {
  }

  /** Room for the whole zone is worth six minutes, room for it twice is worth twelve, and more is worth no more. */
  lemma RoomIsWorth(c: Candidate, n: int, m: int, people: int)
    ensures var zone := if people < 1 then 1 else people;
            && (n <= 2 * zone && m <= 2 * zone ==>
                  Shelters.Score(c.(effectiveCapacity := m), people)
                    == Shelters.Score(c.(effectiveCapacity := n), people) - 6.0 * ((m - n) as real / zone as real))
            && (2 * zone <= m ==>
                  Shelters.Score(c.(effectiveCapacity := m), people)
                    == Shelters.Score(c.(effectiveCapacity := 2 * zone), people))
  {
    hide Shelters.Score;
    var zone := if people < 1 then 1 else people;
    var a, b, twice := n as real / zone as real, m as real / zone as real, (2 * zone) as real / zone as real;
    Shares(n, m, zone);
    Shares(2 * zone, m, zone);
    Shares(m, n, zone);
    Headrooms(c, n, a, people);
    Headrooms(c, m, b, people);
    Headrooms(c, 2 * zone, twice, people);
  }

  lemma Headrooms(c: Candidate, n: int, share: real, people: int)
    requires share == n as real / (if people < 1 then 1 else people) as real
    ensures Shelters.Score(c.(effectiveCapacity := n), people)
         == Shelters.Score(c.(effectiveCapacity := 0), people) - 6.0 * (if 2.0 < share then 2.0 else share)
  {
  }

  lemma Shares(n: int, m: int, zone: int)
    requires zone > 0
    ensures m as real / zone as real - n as real / zone as real == (m - n) as real / zone as real
    ensures m <= 2 * zone ==> m as real / zone as real <= 2.0
    ensures 2 * zone <= m ==> 2.0 <= m as real / zone as real
  {
    var a, b, z := n as real, m as real, zone as real;
    assert b / z * z == b;
  }

  /** Medics are worth four minutes, and two days of both water and food are worth three. */
  lemma CareIsWorth(c: Candidate, medics: int, water: Option<real>, food: Option<real>, people: int)
    ensures Shelters.Score(c.(medics := medics), people)
         == Shelters.Score(c.(medics := 0), people) - if medics > 0 then 4.0 else 0.0
    ensures Shelters.Score(c.(waterDays := water, foodDays := food), people)
         == Shelters.Score(c.(waterDays := None, foodDays := None), people)
            - if water.Some? && food.Some? && 2.0 <= water.value && 2.0 <= food.value then 3.0 else 0.0
  {
  }

  // ----- who is tried first ------------------------------------------------------------------------

  /** The feasible shelters of a ranking come in the order of their scores. */
  lemma FeasibleInOrder(cs: seq<Candidate>)
    ensures var fs := Shelters.FeasibleOnes(Shelters.Ranked(cs));
            forall i, j :: 0 <= i < j < |fs| ==> fs[i].score <= fs[j].score
  {
    hide Shelters.FeasibleOnes, Shelters.Ranked;
    Shelters.RankedOrder(cs);
    FeasibleFront(Shelters.Ranked(cs), |Shelters.FeasibleOnes(cs)|);
  }

  lemma {:induction false} FeasibleFront(r: seq<Candidate>, n: nat)
    requires Shelters.InOrder(r, n)
    ensures Shelters.FeasibleOnes(r) == r[..n]
  {
    if r != [] {
      var init := r[..|r| - 1];
      if n == |r| {
        FeasibleFront(init, n - 1);
        assert r == init[..n - 1] + [r[|r| - 1]];
      } else {
        FeasibleFront(init, n);
        assert init[..n] == r[..n];
      }
    }
  }

  /** Shelters are known by their ids: one judgement for each. */
  lemma JudgedOnce(c: Scene, e: Step, i: nat, j: nat)
    requires Shelters.Known(e.raw, c.payloads) && i < |e.raw| && j < |e.raw| && e.raw[i].payload == e.raw[j].payload
    ensures JudgedFor(c, e)[i] == JudgedFor(c, e)[j]
  {
    hide Shelters.Judge;
  }

  /** Of two fit shelters, the one with the higher score receives people only if the other has run out of room. */
  lemma LowerScoreIsTriedFirst(c: Scene, e: Step, i: nat, j: nat, k: nat)
    requires Keyed(c) && e.zone.nearestNode.Some? && LocatedStep(c, e)
    requires i < |e.raw| && j < |e.raw| && k < |e.placed| && e.placed[k].shelterId == e.raw[j].payload
    requires !Unfit(c, e, e.raw[i].payload, 1, e.stock) && !Unfit(c, e, e.raw[j].payload, 1, e.stock)
    requires JudgedFor(c, e)[i].score < JudgedFor(c, e)[j].score
    ensures At(e.left, e.raw[i].payload) < Need(e.zone.people, c.split)
  {
    hide Shelters.FeasibleOnes, RankedFrom, JudgedFor, Serve, Unfit, TwelveNearest, Travels, Why, Keyed;
    var n := PlacedBehindFull(c, e, k);
    IsTheOne(c, e, n, j);
    JudgedFit(c, e, i);
    var m := FitPlace(c, e, i);
    RankedInOrder(c, e);
    var fs := Shelters.FeasibleOnes(RankedFor(c, e));
    assert m < n && fs[..n][m] == fs[m];
  }

  lemma RankedInOrder(c: Scene, e: Step)
    requires Shelters.Known(e.raw, c.payloads)
    ensures var fs := Shelters.FeasibleOnes(RankedFor(c, e));
            forall i, j :: 0 <= i < j < |fs| ==> fs[i].score <= fs[j].score
  {
    hide Shelters.FeasibleOnes, Shelters.Ranked, Shelters.JudgeAll;
    FeasibleInOrder(JudgedFor(c, e));
  }

  /** Where the shelter of an assignment stands among the feasible ones: behind such as have no room left. */
  lemma PlacedBehindFull(c: Scene, e: Step, k: nat) returns (n: nat)
    requires e.zone.nearestNode.Some? && LocatedStep(c, e) && k < |e.placed|
    ensures var fs := Shelters.FeasibleOnes(RankedFor(c, e));
            && n < |fs| && fs[n].shelterId == e.placed[k].shelterId
            && NoRoom(fs[..n], e.left, Need(e.zone.people, c.split))
  {
    hide Shelters.FeasibleOnes, RankedFrom, Serve, TwelveNearest, Travels, Why, NoRoom;
    var fs := Shelters.FeasibleOnes(RankedFor(c, e));
    var out := Serve(fs, e.stock, e.zone.people, c.split, c.most);
    assert Carries(e.zone, out.takes[k], e.placed[k]);
    BetterAreFull(fs, e.stock, e.zone.people, c.split, c.most, k);
    n :| 0 <= n < |fs| && fs[n] == out.takes[k].cand && NoRoom(fs[..n], out.stock, Need(e.zone.people, c.split));
  }

  lemma FitPlace(c: Scene, e: Step, i: nat) returns (m: nat)
    requires Keyed(c) && Shelters.Known(e.raw, c.payloads) && i < |e.raw|
    requires !Unfit(c, e, e.raw[i].payload, 1, e.stock)
    ensures var fs := Shelters.FeasibleOnes(RankedFor(c, e)); m < |fs| && fs[m] == JudgedFor(c, e)[i]
  {
    assert i < |JudgedFor(c, e)|;
    hide Shelters.FeasibleOnes, RankedFrom, JudgedFor, Unfit;
    JudgedFit(c, e, i);
    RankedFeasible(c, e, JudgedFor(c, e)[i]);
    m :| 0 <= m < |Shelters.FeasibleOnes(RankedFor(c, e))|
         && Shelters.FeasibleOnes(RankedFor(c, e))[m] == JudgedFor(c, e)[i];
  }

  lemma IsTheOne(c: Scene, e: Step, n: nat, j: nat)
    requires Keyed(c) && Shelters.Known(e.raw, c.payloads) && n < |Shelters.FeasibleOnes(RankedFor(c, e))|
    requires j < |e.raw| && Shelters.FeasibleOnes(RankedFor(c, e))[n].shelterId == e.raw[j].payload
    ensures Shelters.FeasibleOnes(RankedFor(c, e))[n] == JudgedFor(c, e)[j]
  {
    var cand := Shelters.FeasibleOnes(RankedFor(c, e))[n];
    RankedFeasible(c, e, cand);
    hide Shelters.FeasibleOnes, RankedFrom;
    var i :| 0 <= i < |JudgedFor(c, e)| && JudgedFor(c, e)[i] == cand;
    JudgedFit(c, e, i);
    JudgedOnce(c, e, i, j);
  }

  /** The same to the zone in all but travel time. */
  predicate Alike(c: Scene, e: Step, a: string, b: string)
    requires a in c.payloads && b in c.payloads && a in e.travel && b in e.travel
  {
    var p, q := c.payloads[a], c.payloads[b];
    && At(e.stock, a) == At(e.stock, b) && p.medics == q.medics && p.waterDays == q.waterDays
    && p.foodDays == q.foodDays && e.travel[a].1 == e.travel[b].1
  }

  /** What the ranking weighs of a candidate with a travel time. */
  ghost predicate SameButTime(x: Candidate, y: Candidate) {
    && x.travelTime.Some? && y.travelTime.Some? && x.routeHazard == y.routeHazard
    && x.effectiveCapacity == y.effectiveCapacity && x.medics == y.medics
    && x.waterDays == y.waterDays && x.foodDays == y.foodDays
  }

  lemma ScoresDiffer(x: Candidate, y: Candidate, people: int)
    requires SameButTime(x, y)
    ensures Shelters.Score(y, people) - Shelters.Score(x, people) == (y.travelTime.value - x.travelTime.value) / 60.0
  {
  }

  /** A fit shelter as it is scored. */
  lemma FitScore(c: Scene, e: Step, i: nat) returns (x: Candidate)
    requires Keyed(c) && Shelters.Known(e.raw, c.payloads) && i < |e.raw|
    requires !Unfit(c, e, e.raw[i].payload, 1, e.stock)
    ensures var id := e.raw[i].payload;
            && JudgedFor(c, e)[i].score == Shelters.Score(x, e.zone.people)
            && x.travelTime == Some(e.travel[id].0) && x.routeHazard == Some(e.travel[id].1)
            && x.effectiveCapacity == At(e.stock, id) && x.medics == c.payloads[id].medics
            && x.waterDays == c.payloads[id].waterDays && x.foodDays == c.payloads[id].foodDays
  {
    hide Shelters.Score;
    JudgedFit(c, e, i);
    var p := Refreshed(c.payloads, e.stock)[e.raw[i].payload];
    x := Shelters.WithTravel(Shelters.Screen(p, c.hav(e.zone.place, p.place), Shelters.UNSAFE_RISK), Some(e.travel));
  }

  lemma SoonerScoresLower(c: Scene, e: Step, i: nat, j: nat)
    requires Keyed(c) && Shelters.Known(e.raw, c.payloads) && i < |e.raw| && j < |e.raw|
    requires !Unfit(c, e, e.raw[i].payload, 1, e.stock) && !Unfit(c, e, e.raw[j].payload, 1, e.stock)
    requires Alike(c, e, e.raw[i].payload, e.raw[j].payload)
    ensures JudgedFor(c, e)[j].score - JudgedFor(c, e)[i].score
         == (e.travel[e.raw[j].payload].0 - e.travel[e.raw[i].payload].0) / 60.0
  {
    hide JudgedFor, Shelters.Score, Keyed;
    var x := FitScore(c, e, i);
    var y := FitScore(c, e, j);
    ScoresDiffer(x, y, e.zone.people);
  }

  /**
   Of two fit shelters alike but for travel time, the one that takes longer receives nobody of the
   zone while the other has room, for one person of it or, if it may not be split, for all.
   */
  lemma SoonerIsTriedFirst(c: Scene, e: Step, i: nat, j: nat, k: nat)
    requires Keyed(c) && e.zone.nearestNode.Some? && LocatedStep(c, e)
    requires i < |e.raw| && j < |e.raw| && k < |e.placed| && e.placed[k].shelterId == e.raw[j].payload
    requires !Unfit(c, e, e.raw[i].payload, 1, e.stock) && !Unfit(c, e, e.raw[j].payload, 1, e.stock)
    requires Alike(c, e, e.raw[i].payload, e.raw[j].payload)
    requires e.travel[e.raw[i].payload].0 < e.travel[e.raw[j].payload].0
    ensures At(e.left, e.raw[i].payload) < Need(e.zone.people, c.split)
  {
    assert Shelters.Known(e.raw, c.payloads);
    hide LocatedStep, JudgedFor, Keyed;
    SoonerScoresLower(c, e, i, j);
    LowerScoreIsTriedFirst(c, e, i, j, k);
  }
}
