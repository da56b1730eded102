/**
 How many places a shelter offers, exactly: the most that its limits allow in its best shape, what
 each defect takes off, and what short supplies do to it. backend/app/capacity/engine.py.
 */
module Places {
  import opened Capacity
  import opened Wrappers

  /** Supplies are reported as amounts, or not at all; what is reported in days is treated below. */
  predicate NoDays(s: ShelterState) {
    && (s.waterLpd.None? ==> s.waterDays.None?) && s.foodDays.None?
  }

  function Best(s: ShelterState): ShelterState {
    s.(state := "open", hasPowerBackup := true)
  }

  lemma WholeAtBest(g: Engine, s: ShelterState)
    requires s.hazardRisk < g.unsafeRiskThreshold
    ensures Compute(g, Best(s), None).effectiveCapacity
         == Binding(SpaceAvailable(g, s), WaterAvailable(g, s), FoodAvailable(g, s),
                    SanitationAvailable(g, s), MedicalAvailable(g, s)).1
  {
    SameLimits(g, s);
    LimitsNotNegative(g, s);
    hide SpaceAvailable, WaterAvailable, FoodAvailable, SanitationAvailable, MedicalAvailable, Portion;
    var b := Binding(SpaceAvailable(g, s), WaterAvailable(g, s), FoodAvailable(g, s),
                     SanitationAvailable(g, s), MedicalAvailable(g, s));
    WholePortion(b.1);
    BindingIsLeast(SpaceAvailable(g, s), WaterAvailable(g, s), FoodAvailable(g, s),
                   SanitationAvailable(g, s), MedicalAvailable(g, s));
  }

  lemma SameLimits(g: Engine, s: ShelterState)
    ensures SpaceAvailable(g, Best(s)) == SpaceAvailable(g, s) && WaterAvailable(g, Best(s)) == WaterAvailable(g, s)
    ensures FoodAvailable(g, Best(s)) == FoodAvailable(g, s)
    ensures SanitationAvailable(g, Best(s)) == SanitationAvailable(g, s)
    ensures MedicalAvailable(g, Best(s)) == MedicalAvailable(g, s)
  {
    hide Trunc, BySupply;
  }

  lemma LimitsNotNegative(g: Engine, s: ShelterState)
    ensures 0 <= SpaceAvailable(g, s) && 0 <= WaterAvailable(g, s) && 0 <= FoodAvailable(g, s)
    ensures 0 <= SanitationAvailable(g, s) && 0 <= MedicalAvailable(g, s)
  {
    SpaceMonotone(g, s, s);
    WaterMonotone(g, s, s);
    FoodMonotone(g, s, s);
    CareMonotone(g, s, s);
  }

  // ----- the most that the limits allow --------------------------------------------------------------

  /**
   In its best shape a safe shelter offers exactly as many places as can be filled without breaking
   one of its limits: so many more can come, and not one more than that.
   */
  lemma OffersTheMost(g: Engine, s: ShelterState, extra: nat)
    requires s.hazardRisk < g.unsafeRiskThreshold && NoDays(s) && extra > 0
    ensures extra <= Compute(g, Best(s), None).effectiveCapacity <==>
              WithinLimits(g, Best(s), s.currentOccupancy + s.incomingAssigned + extra)
  {
    WholeAtBest(g, s);
    LimitsBound(g, s, extra);
    hide SpaceAvailable, WaterAvailable, FoodAvailable, SanitationAvailable, MedicalAvailable, Compute;
    BindingIsLeast(SpaceAvailable(g, s), WaterAvailable(g, s), FoodAvailable(g, s),
                   SanitationAvailable(g, s), MedicalAvailable(g, s));
  }

  /** Each constraint allows so many exactly if its limit does. */
  lemma LimitsBound(g: Engine, s: ShelterState, extra: nat)
    requires s.hazardRisk < g.unsafeRiskThreshold && NoDays(s) && extra > 0
    ensures WithinLimits(g, Best(s), Committed(s) + extra) <==>
              && extra <= SpaceAvailable(g, s) && extra <= WaterAvailable(g, s) && extra <= FoodAvailable(g, s)
              && extra <= SanitationAvailable(g, s) && extra <= MedicalAvailable(g, s)
  {
    hide SpaceLimit, Trunc;
    BestSpace(g, s);
  }

  lemma BestSpace(g: Engine, s: ShelterState)
    ensures SpaceLimit(g, Best(s)) == SpaceLimit(g, s)
  {
  }

  // ----- what defects take off ---------------------------------------------------------------------------

  /** The share that is left of the best shape's places. */
  ghost predicate Leaves(s: ShelterState, reportAge: Option<real>, share: real) {
    share == (if s.state == "standby" then 0.5 else 1.0) * (if s.hasPowerBackup then 1.0 else 0.95)
             * (if reportAge.Some? && 6.0 < reportAge.value then 0.8 else 1.0)
  }

  /** Standing by halves the places, no spare power takes a twentieth and a report over six hours old a fifth. */
  lemma DefectsTakeTheirShare(g: Engine, s: ShelterState, reportAge: Option<real>, share: real)
    requires !Closed(s) && s.hazardRisk < g.unsafeRiskThreshold && Leaves(s, reportAge, share)
    ensures var n, best := Compute(g, s, reportAge).effectiveCapacity, Compute(g, Best(s), None).effectiveCapacity;
            n as real <= best as real * share < n as real + 1.0
  {
    hide SpaceAvailable, WaterAvailable, FoodAvailable, SanitationAvailable, MedicalAvailable, Factor, Scaled, Closed,
         Leaves, Compute;
    WholeAtBest(g, s);
    LimitsNotNegative(g, s);
    BindingIsLeast(SpaceAvailable(g, s), WaterAvailable(g, s), FoodAvailable(g, s),
                   SanitationAvailable(g, s), MedicalAvailable(g, s));
    FactorIs(s, reportAge, share);
    FactorIsProportion(s, reportAge);
    ComputeScales(g, s, reportAge, Compute(g, Best(s), None).effectiveCapacity);
    WholePart(Compute(g, Best(s), None).effectiveCapacity, share);
  }

  lemma ComputeScales(g: Engine, s: ShelterState, reportAge: Option<real>, n: int)
    requires !Closed(s) && s.hazardRisk < g.unsafeRiskThreshold
    requires n == Binding(SpaceAvailable(g, s), WaterAvailable(g, s), FoodAvailable(g, s),
                          SanitationAvailable(g, s), MedicalAvailable(g, s)).1
    ensures Compute(g, s, reportAge).effectiveCapacity == Scaled(n, Factor(s, reportAge))
  {
    hide SpaceAvailable, WaterAvailable, FoodAvailable, SanitationAvailable, MedicalAvailable, Factor, Scaled, Closed;
  }

  lemma FactorIs(s: ShelterState, reportAge: Option<real>, share: real)
    requires Leaves(s, reportAge, share)
    ensures Factor(s, reportAge) == share
  {
  }

  lemma WholePart(n: int, share: real)
    requires 0 <= n && 0.0 <= share
    ensures var m := Scaled(n, share); m as real <= n as real * share < m as real + 1.0
  {
    assert 0.0 <= n as real * share;
  }

  /** A closed or compromised shelter, or one in the footprint of the hazard, offers none. */
  lemma ClosedOffersNone(g: Engine, s: ShelterState, reportAge: Option<real>)
    requires s.state == "closed" || s.state == "compromised" || g.unsafeRiskThreshold <= s.hazardRisk
    ensures var r := Compute(g, s, reportAge);
            r.effectiveCapacity == 0 && r.rawAvailable == 0 && !r.operational && r.utilisation == 1.0
  {
  }

  // ----- short supplies ------------------------------------------------------------------------------------

  /** Nothing but its space limits the shelter. */
  predicate OnlySpace(s: ShelterState) {
    && s.waterLpd.None? && s.waterDays.None? && s.foodMeals.None? && s.foodDays.None?
    && s.latrines.None? && s.medics.None?
  }

  /** Days of water, or of food, below two leave their half as a share of the space, and none below nought. */
  lemma DaysLeaveTheirShare(g: Engine, s: ShelterState, days: real)
    requires s.hazardRisk < g.unsafeRiskThreshold && OnlySpace(s)
    ensures var space := Compute(g, Best(s), None).effectiveCapacity;
            var thirsty := Compute(g, Best(s.(waterDays := Some(days))), None).effectiveCapacity;
            var hungry := Compute(g, Best(s.(foodDays := Some(days))), None).effectiveCapacity;
            && thirsty == hungry
            && (2.0 <= days ==> thirsty == space) && (days <= 0.0 ==> thirsty == 0)
            && (0.0 <= days < 2.0 ==> thirsty as real <= space as real * (days / 2.0) < thirsty as real + 1.0)
  {
    hide SpaceAvailable, WaterAvailable, FoodAvailable, SanitationAvailable, MedicalAvailable, BySupply, Compute;
    var w, f := s.(waterDays := Some(days)), s.(foodDays := Some(days));
    WholeAtBest(g, s);
    WholeAtBest(g, w);
    WholeAtBest(g, f);
    LimitsNotNegative(g, s);
    DaysLimits(g, s, days);
    BySupplyIs(SpaceAvailable(g, s), days);
  }

  lemma DaysLimits(g: Engine, s: ShelterState, days: real)
    requires OnlySpace(s)
    ensures var w, f, space := s.(waterDays := Some(days)), s.(foodDays := Some(days)), SpaceAvailable(g, s);
            && SpaceAvailable(g, w) == space && SpaceAvailable(g, f) == space
            && WaterAvailable(g, s) == space && WaterAvailable(g, f) == space
            && WaterAvailable(g, w) == BySupply(space, days) && FoodAvailable(g, f) == BySupply(space, days)
            && FoodAvailable(g, s) == space && FoodAvailable(g, w) == space
            && SanitationAvailable(g, s) == space && SanitationAvailable(g, w) == space
            && SanitationAvailable(g, f) == space && MedicalAvailable(g, s) == space
            && MedicalAvailable(g, w) == space && MedicalAvailable(g, f) == space
  {
    hide BySupply, SpaceLimit;
    SupplySpace(g, s, days);
  }

  lemma SupplySpace(g: Engine, s: ShelterState, days: real)
    ensures SpaceLimit(g, s.(waterDays := Some(days))) == SpaceLimit(g, s)
    ensures SpaceLimit(g, s.(foodDays := Some(days))) == SpaceLimit(g, s)
  {
  }

  lemma BySupplyIs(space: int, days: real)
    requires 0 <= space
    ensures var n := BySupply(space, days);
            && 0 <= n <= space && (2.0 <= days ==> n == space) && (days <= 0.0 ==> n == 0)
            && (0.0 <= days < 2.0 ==> n as real <= space as real * (days / 2.0) < n as real + 1.0)
  {
    if days < 2.0 {
      var f := if days / 2.0 < 0.0 then 0.0 else days / 2.0;
      Shrunk(space, f);
    }
  }

  lemma Shrunk(space: int, f: real)
    requires 0 <= space && 0.0 <= f <= 1.0
    ensures var n := Portion(space, f);
            && 0 <= n <= space && n as real <= space as real * f < n as real + 1.0 && (f == 0.0 ==> n == 0)
  {
    Lessens(space as real, f);
  }

  lemma Lessens(a: real, f: real)
    requires 0.0 <= a && 0.0 <= f <= 1.0
    ensures 0.0 <= a * f <= a
  {
    assert 0.0 <= a * (1.0 - f);
  }

  /** The other figures of the report: the free beds, and how full the shelter is with those under way. */
  lemma ReportAddsUp(g: Engine, s: ShelterState, reportAge: Option<real>)
    requires !Closed(s) && s.hazardRisk < g.unsafeRiskThreshold
    ensures var r := Compute(g, s, reportAge);
            && (s.currentOccupancy <= s.maxCapacity ==> r.rawAvailable + s.currentOccupancy == s.maxCapacity)
            && (s.maxCapacity < s.currentOccupancy ==> r.rawAvailable == 0)
            && (s.maxCapacity != 0 ==>
                  r.utilisation * s.maxCapacity as real == (s.currentOccupancy + s.incomingAssigned) as real)
            && (s.maxCapacity == 0 ==> r.utilisation == 1.0)
            && (r.operational <==> r.effectiveCapacity > 0) && r.medics == s.medics
            && r.waterDays == s.waterDays && r.foodDays == s.foodDays
  {
    hide SpaceAvailable, WaterAvailable, FoodAvailable, SanitationAvailable, MedicalAvailable, Factor, Scaled, Binding;
    if s.maxCapacity != 0 {
      Ratio(Committed(s) as real, s.maxCapacity as real);
    }
  }

  lemma Ratio(a: real, b: real)
    requires b != 0.0
    ensures a / b * b == a
  {
  }

  // ----- the space ---------------------------------------------------------------------------------------

  /** So many whole places of three and a half square metres. */
  predicate FloorHolds(area: real, places: nat) {
    3.5 * places as real <= area < 3.5 * (places + 1) as real
  }

  /** The space allows the safe share of the beds there are, and of the places on the floor if its area is known. */
  lemma SpaceLimitExactly(g: Engine, s: ShelterState, places: nat, n: nat)
    requires n > 0 && 0 <= s.maxCapacity && 0.0 <= g.safeUtilisation
    requires s.floorArea.Some? && s.floorArea.value != 0.0 ==> FloorHolds(s.floorArea.value, places)
    ensures n <= SpaceLimit(g, s) <==>
              && n as real <= s.maxCapacity as real * g.safeUtilisation
              && (s.floorArea.Some? && s.floorArea.value != 0.0 ==> n as real <= places as real * g.safeUtilisation)
  {
    hide Portion, FloorHolds, Trunc;
    ShareHolds(s.maxCapacity, g.safeUtilisation, n);
    if s.floorArea.Some? && s.floorArea.value != 0.0 {
      FloorOf(s.floorArea.value, places);
      ShareHolds(places, g.safeUtilisation, n);
      SmallerShare(s.maxCapacity, places, g.safeUtilisation);
    }
  }

  lemma SmallerShare(a: nat, b: nat, share: real)
    requires 0.0 <= share
    ensures Portion(Smaller(a, b), share) == Smaller(Portion(a, share), Portion(b, share))
  {
    PortionMonotone(Smaller(a, b), Larger(a, b), share, share);
    hide Portion;
  }

  lemma FloorOf(area: real, places: nat)
    requires FloorHolds(area, places)
    ensures Trunc(area / SQ_M_PER_PERSON) == places
  {
    assert area / 3.5 * 3.5 == area;
  }

  lemma ShareHolds(total: nat, share: real, n: nat)
    requires 0.0 <= share
    ensures n <= Portion(total, share) <==> n as real <= total as real * share
  {
    assert 0.0 <= total as real * share;
  }
}
