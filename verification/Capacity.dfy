/**
 Carrying capacity of a shelter, backend/app/capacity/engine.py. Clocks are left
 out: the age of the last report is an argument.
 */
module Capacity {
  import opened Wrappers

  const SQ_M_PER_PERSON := 3.5
  const WATER_LPD_PER_PERSON := 15.0
  const PEOPLE_PER_LATRINE := 20
  const PEOPLE_PER_MEDIC := 250
  const STALE_REPORT_HOURS := 6.0

  datatype ShelterState = ShelterState(
    shelterId: string, name: string, maxCapacity: int, currentOccupancy: int, state: string,
    floorArea: Option<real>, waterLpd: Option<real>, waterDays: Option<real>,
    foodMeals: Option<int>, foodDays: Option<real>, latrines: Option<int>, medics: Option<int>,
    hasPowerBackup: bool, hazardRisk: real, incomingAssigned: int)

  datatype CapacityResult = CapacityResult(
    shelterId: string, name: string, effectiveCapacity: int, rawAvailable: int, binding: string,
    operational: bool, utilisation: real,
    medics: Option<int>, waterDays: Option<real>, foodDays: Option<real>)

  datatype Engine = Engine(safeUtilisation: real, unsafeRiskThreshold: real)

  function Committed(s: ShelterState): int {
    s.currentOccupancy + s.incomingAssigned
  }

  function SpaceTotal(s: ShelterState): int {
    Smaller(s.maxCapacity,
        if s.floorArea.Some? && s.floorArea.value != 0.0 then Trunc(s.floorArea.value / SQ_M_PER_PERSON)
        else s.maxCapacity)
  }

  function SpaceLimit(g: Engine, s: ShelterState): int {
    Portion(SpaceTotal(s), g.safeUtilisation)
  }

  function SpaceAvailable(g: Engine, s: ShelterState): int {
    Larger(SpaceLimit(g, s) - Committed(s), 0)
  }

  function Portion(n: int, f: real): int {
    Trunc(n as real * f)
  }

  /** Below two days of supply, only a share of the space is offered. */
  function BySupply(space: int, days: real): int {
    if 2.0 <= days then space else Portion(space, if days / 2.0 < 0.0 then 0.0 else days / 2.0)
  }

  function WaterAvailable(g: Engine, s: ShelterState): int {
    if s.waterLpd.Some? then Larger(Trunc(s.waterLpd.value / WATER_LPD_PER_PERSON) - Committed(s), 0)
    else if s.waterDays.Some? then BySupply(SpaceAvailable(g, s), s.waterDays.value)
    else SpaceAvailable(g, s)
  }

  function FoodAvailable(g: Engine, s: ShelterState): int {
    if s.foodDays.Some? then BySupply(SpaceAvailable(g, s), s.foodDays.value)
    else if s.foodMeals.Some? then Larger(Trunc(s.foodMeals.value as real / 3.0) - Committed(s), 0)
    else SpaceAvailable(g, s)
  }

  function SanitationAvailable(g: Engine, s: ShelterState): int {
    if s.latrines.Some? then Larger(s.latrines.value * PEOPLE_PER_LATRINE - Committed(s), 0) else SpaceAvailable(g, s)
  }

  function MedicalAvailable(g: Engine, s: ShelterState): int {
    if s.medics.Some? then Larger(s.medics.value * PEOPLE_PER_MEDIC - Committed(s), 0) else SpaceAvailable(g, s)
  }

  /** The first of the least, in the order the constraints are listed. */
  function Binding(space: int, water: int, food: int, sanitation: int, medical: int): (string, int) {
    var b := ("space", space);
    var b := if water < b.1 then ("water", water) else b;
    var b := if food < b.1 then ("food", food) else b;
    var b := if sanitation < b.1 then ("sanitation", sanitation) else b;
    if medical < b.1 then ("medical", medical) else b
  }

  function Factor(s: ShelterState, reportAge: Option<real>): real {
    var f := if s.state == "standby" then 0.5 else 1.0;
    var f := if !s.hasPowerBackup then f * 0.95 else f;
    if reportAge.Some? && STALE_REPORT_HOURS < reportAge.value then f * 0.8 else f
  }

  /** The binding number times the operational factor, never below zero. */
  function Scaled(n: int, f: real): int {
    Larger(Portion(n, f), 0)
  }

  function Closed(s: ShelterState): bool {
    s.state == "closed" || s.state == "compromised"
  }

  function Compute(g: Engine, s: ShelterState, reportAge: Option<real>): CapacityResult {
    if Closed(s) then
      CapacityResult(s.shelterId, s.name, 0, 0, "shelter is " + s.state, false, 1.0, None, None, None)
    else if g.unsafeRiskThreshold <= s.hazardRisk then
      CapacityResult(s.shelterId, s.name, 0, 0, "inside hazard footprint", false, 1.0, None, None, None)
    else
      var b := Binding(SpaceAvailable(g, s), WaterAvailable(g, s), FoodAvailable(g, s),
                       SanitationAvailable(g, s), MedicalAvailable(g, s));
      var effective := Scaled(b.1, Factor(s, reportAge));
      CapacityResult(s.shelterId, s.name, effective, Larger(s.maxCapacity - s.currentOccupancy, 0), b.0,
                     effective > 0,
                     if s.maxCapacity != 0 then Committed(s) as real / s.maxCapacity as real else 1.0,
                     s.medics, s.waterDays, s.foodDays)
  }

  // ----- what the number promises -----------------------------------------------------------

  lemma ScaledAtMost(n: int, f: real)
    requires 0.0 < f <= 1.0
    ensures 0 <= Scaled(n, f) && (Scaled(n, f) > 0 ==> Scaled(n, f) <= n)
  {
    if 0 <= n {
      Shrinks(n as real, f);
    } else {
      Shrinks(-(n as real), f);
      assert n as real * f == -(-(n as real) * f);
    }
  }

  lemma Shrinks(a: real, f: real)
    requires 0.0 <= a && 0.0 < f <= 1.0
    ensures 0.0 <= a * f <= a
  {
    assert 0.0 <= a * (1.0 - f);
  }

  lemma FactorIsProportion(s: ShelterState, reportAge: Option<real>)
    ensures 0.0 < Factor(s, reportAge) <= 1.0
  {
  }

  /** Holding `n` people in all keeps a shelter within every limit that it reports. */
  predicate WithinLimits(g: Engine, s: ShelterState, n: int) {
    && !Closed(s) && s.hazardRisk < g.unsafeRiskThreshold
    && n <= SpaceLimit(g, s)
    && (s.waterLpd.Some? ==> n <= Trunc(s.waterLpd.value / WATER_LPD_PER_PERSON))
    && (s.foodDays.None? && s.foodMeals.Some? ==> n <= Trunc(s.foodMeals.value as real / 3.0))
    && (s.latrines.Some? ==> n <= s.latrines.value * PEOPLE_PER_LATRINE)
    && (s.medics.Some? ==> n <= s.medics.value * PEOPLE_PER_MEDIC)
  }

  /** The binding constraint is the one that allows least, the first of them if there are several. */
  lemma BindingIsLeast(space: int, water: int, food: int, sanitation: int, medical: int)
    ensures var b := Binding(space, water, food, sanitation, medical);
            && b.1 <= space && b.1 <= water && b.1 <= food && b.1 <= sanitation && b.1 <= medical
            && (b == ("space", space) || b == ("water", water) || b == ("food", food)
                || b == ("sanitation", sanitation) || b == ("medical", medical))
            && (b.0 != "space" ==> b.1 < space)
            && (b.0 in {"food", "sanitation", "medical"} ==> b.1 < water)
            && (b.0 in {"sanitation", "medical"} ==> b.1 < food) && (b.0 == "medical" ==> b.1 < sanitation)
  {
  }

  lemma EffectiveAtMostEach(g: Engine, s: ShelterState, reportAge: Option<real>)
    requires !Closed(s) && s.hazardRisk < g.unsafeRiskThreshold
    ensures var e := Compute(g, s, reportAge).effectiveCapacity;
            && (e > 0 ==> e <= SpaceAvailable(g, s)) && (e > 0 ==> e <= WaterAvailable(g, s))
            && (e > 0 ==> e <= FoodAvailable(g, s)) && (e > 0 ==> e <= SanitationAvailable(g, s))
            && (e > 0 ==> e <= MedicalAvailable(g, s))
  {
    hide Factor, Scaled, Binding, SpaceAvailable, WaterAvailable, FoodAvailable, SanitationAvailable, MedicalAvailable;
    var b := Binding(SpaceAvailable(g, s), WaterAvailable(g, s), FoodAvailable(g, s),
                     SanitationAvailable(g, s), MedicalAvailable(g, s));
    FactorIsProportion(s, reportAge);
    BindingIsLeast(SpaceAvailable(g, s), WaterAvailable(g, s), FoodAvailable(g, s),
                   SanitationAvailable(g, s), MedicalAvailable(g, s));
    ScaledAtMost(b.1, Factor(s, reportAge));
  }

  /**
   The capacity an operational shelter reports can be filled, in part or whole, on top of
   its occupants and those already under way, without breaking any of its limits.
   */
  lemma FillingIsSafe(g: Engine, s: ShelterState, reportAge: Option<real>, extra: int)
    requires Compute(g, s, reportAge).operational && extra <= Compute(g, s, reportAge).effectiveCapacity
    ensures WithinLimits(g, s, s.currentOccupancy + s.incomingAssigned + extra)
  {
    EffectiveAtMostEach(g, s, reportAge);
    hide Factor, Scaled, SpaceLimit, SpaceTotal, Trunc;
  }

  /** The space limit is at most the safe share of the places there are. */
  lemma SpaceLimitIsShare(g: Engine, s: ShelterState)
    requires 0 <= SpaceTotal(s) && 0.0 <= g.safeUtilisation
    ensures SpaceLimit(g, s) as real <= SpaceTotal(s) as real * g.safeUtilisation
    ensures SpaceTotal(s) <= s.maxCapacity
  {
    assert 0.0 <= SpaceTotal(s) as real * g.safeUtilisation;
  }

  // ----- less of anything never offers more -----------------------------------------------------

  predicate NoMore(x: Option<real>, y: Option<real>) {
    (x.Some? <==> y.Some?) && (x.Some? ==> x.value <= y.value)
  }

  predicate NoMoreOf(x: Option<int>, y: Option<int>) {
    (x.Some? <==> y.Some?) && (x.Some? ==> x.value <= y.value)
  }

  /** `t` is the shelter `s` in no better shape: fuller, or short of something, or degraded. */
  predicate NoBetter(t: ShelterState, s: ShelterState) {
    && t.maxCapacity == s.maxCapacity && t.floorArea == s.floorArea && Committed(s) <= Committed(t)
    && NoMore(t.waterLpd, s.waterLpd) && NoMore(t.waterDays, s.waterDays)
    && NoMoreOf(t.foodMeals, s.foodMeals) && NoMore(t.foodDays, s.foodDays)
    && NoMoreOf(t.latrines, s.latrines) && NoMoreOf(t.medics, s.medics)
    && (t.hasPowerBackup ==> s.hasPowerBackup) && s.hazardRisk <= t.hazardRisk
    && (t.state == s.state || t.state == "standby" || Closed(t))
    && (Closed(s) ==> Closed(t))
  }

  predicate Stale(reportAge: Option<real>) {
    reportAge.Some? && STALE_REPORT_HOURS < reportAge.value
  }

  lemma TruncMonotone(x: real, y: real)
    requires x <= y
    ensures Trunc(x) <= Trunc(y)
  {
  }

  lemma TimesMonotone(a: real, b: real, c: real, d: real)
    requires 0.0 <= a <= b && 0.0 <= c <= d
    ensures 0.0 <= a * c <= b * d
  {
    assert 0.0 <= a * (d - c);
    assert 0.0 <= (b - a) * d;
  }

  lemma PortionMonotone(m: int, n: int, e: real, f: real)
    requires 0 <= m <= n && 0.0 <= e <= f
    ensures 0 <= Portion(m, e) <= Portion(n, f)
  {
    TimesMonotone(m as real, n as real, e, f);
    TruncMonotone(m as real * e, n as real * f);
  }

  lemma WholePortion(n: int)
    ensures Portion(n, 1.0) == n
  {
  }

  lemma BySupplyMonotone(a: int, b: int, x: real, y: real)
    requires 0 <= a <= b && x <= y
    ensures 0 <= BySupply(a, x) <= BySupply(b, y)
  {
    hide Portion;
    if x < 2.0 {
      var f := if x / 2.0 < 0.0 then 0.0 else x / 2.0;
      var h := if y / 2.0 < 0.0 then 0.0 else y / 2.0;
      PortionMonotone(a, b, f, if y < 2.0 then h else 1.0);
      WholePortion(b);
    }
  }

  lemma SpaceMonotone(g: Engine, t: ShelterState, s: ShelterState)
    requires NoBetter(t, s)
    ensures 0 <= SpaceAvailable(g, t) <= SpaceAvailable(g, s)
  {
    hide Portion;
    assert SpaceTotal(t) == SpaceTotal(s);
  }

  lemma WaterMonotone(g: Engine, t: ShelterState, s: ShelterState)
    requires NoBetter(t, s)
    ensures 0 <= WaterAvailable(g, t) <= WaterAvailable(g, s)
  {
    SpaceMonotone(g, t, s);
    hide SpaceAvailable, BySupply, Trunc;
    if s.waterLpd.Some? {
      TruncMonotone(t.waterLpd.value / WATER_LPD_PER_PERSON, s.waterLpd.value / WATER_LPD_PER_PERSON);
    } else if s.waterDays.Some? {
      BySupplyMonotone(SpaceAvailable(g, t), SpaceAvailable(g, s), t.waterDays.value, s.waterDays.value);
    }
  }

  lemma FoodMonotone(g: Engine, t: ShelterState, s: ShelterState)
    requires NoBetter(t, s)
    ensures 0 <= FoodAvailable(g, t) <= FoodAvailable(g, s)
  {
    SpaceMonotone(g, t, s);
    hide SpaceAvailable, BySupply, Trunc;
    if s.foodDays.Some? {
      BySupplyMonotone(SpaceAvailable(g, t), SpaceAvailable(g, s), t.foodDays.value, s.foodDays.value);
    } else if s.foodMeals.Some? {
      TruncMonotone(t.foodMeals.value as real / 3.0, s.foodMeals.value as real / 3.0);
    }
  }

  lemma CareMonotone(g: Engine, t: ShelterState, s: ShelterState)
    requires NoBetter(t, s)
    ensures 0 <= SanitationAvailable(g, t) <= SanitationAvailable(g, s)
    ensures 0 <= MedicalAvailable(g, t) <= MedicalAvailable(g, s)
  {
    SpaceMonotone(g, t, s);
    hide SpaceAvailable;
  }

  lemma FactorMonotone(t: ShelterState, s: ShelterState, age: Option<real>, later: Option<real>)
    requires NoBetter(t, s) && !Closed(t) && (Stale(age) ==> Stale(later))
    ensures 0.0 <= Factor(t, later) <= Factor(s, age)
  {
  }

  /** A shelter that is fuller, shorter of supplies, degraded or out of touch never offers more places. */
  lemma WorseOffersNoMore(g: Engine, t: ShelterState, s: ShelterState, age: Option<real>, later: Option<real>)
    requires NoBetter(t, s) && (Stale(age) ==> Stale(later))
    ensures Compute(g, t, later).effectiveCapacity <= Compute(g, s, age).effectiveCapacity
  {
    WaterMonotone(g, t, s);
    FoodMonotone(g, t, s);
    CareMonotone(g, t, s);
    SpaceMonotone(g, t, s);
    hide WaterAvailable, FoodAvailable, SpaceAvailable, SanitationAvailable, MedicalAvailable, Factor, Portion;
    if !Closed(t) {
      FactorMonotone(t, s, age, later);
      PortionMonotone(Binding(SpaceAvailable(g, t), WaterAvailable(g, t), FoodAvailable(g, t),
                              SanitationAvailable(g, t), MedicalAvailable(g, t)).1,
                      Binding(SpaceAvailable(g, s), WaterAvailable(g, s), FoodAvailable(g, s),
                              SanitationAvailable(g, s), MedicalAvailable(g, s)).1,
                      Factor(t, later), Factor(s, age));
    }
    NeverNegative(g, s, age);
  }

  lemma NeverNegative(g: Engine, s: ShelterState, age: Option<real>)
    ensures 0 <= Compute(g, s, age).effectiveCapacity
  {
    hide WaterAvailable, FoodAvailable, SpaceAvailable, SanitationAvailable, MedicalAvailable, Factor, Trunc;
  }
}
