/**
  The garden's plant simulation: the periodic tick that drains water and
  happiness and lets a healthy plant grow with age, the creation of a new
  plant, and the water, care and remove actions on the in-memory plant list.

  Store calls are modelled by the values they would write (`Write`), and an
  action's error branch by a `stored` flag: when the store reports an error
  the action returns before touching the in-memory state.
 */
module Simulation {
  import opened JsMath
  import opened Schema

  const WaterDrainPerHour: real := 2.0
  const HappinessDrainPerHour: real := 1.0
  /** Water and happiness must both exceed this for a plant to grow. */
  const GrowthThreshold: int := 50
  const WaterGain: int := 30
  const CareGain: int := 20

  /** What the garden view holds: the loaded plants and the plant open in the detail dialog. */
  datatype View = View(plants: seq<Plant>, selected: Option<Plant>)

  /** One store update: the fields written to the row with the given id. */
  datatype Write<F> = Write(id: string, fields: F)

  /** The fields a tick writes back for one plant. */
  datatype StatsWrite = StatsWrite(waterLevel: int, happiness: int, growthStage: int, lastVisited: Millis)

  /** The fields watering writes back. */
  datatype WaterWrite = WaterWrite(waterLevel: int, lastWatered: Millis)

  /** The fields caring writes back. */
  datatype CareWrite = CareWrite(happiness: int)

  /** The row a new plant is inserted with; the store adds id and timestamps. */
  datatype NewPlant = NewPlant(
    gardenId: string,
    kind: PlantType,
    positionX: int,
    positionY: int,
    growthStage: int,
    waterLevel: int,
    happiness: int)

  // ---------------------------------------------------------------------------
  // Elapsed time

  function HoursSince(t: Millis, now: Millis): (h: real)
    ensures 0.0 <= h <==> t <= now
  {
    (now - t) as real / MsPerHour as real
  }

  function DaysSince(t: Millis, now: Millis): (d: real)
    ensures 0.0 <= d <==> t <= now
  {
    (now - t) as real / MsPerDay as real
  }

  // ---------------------------------------------------------------------------
  // The periodic tick

  /** The water level a tick computes: 2 units drained per hour since the last watering, floored at 0, rounded. */
  function DrainedWater(p: Plant, now: Millis): (w: int)
    ensures 0 <= w
    ensures p.lastWatered <= now && 0 <= p.waterLevel ==> w <= p.waterLevel
  {
    Round(MaxReal(0.0, p.waterLevel as real - HoursSince(p.lastWatered, now) * WaterDrainPerHour))
  }

  /** The happiness a tick computes: 1 unit drained per hour since the last visit, floored at 0, rounded. */
  function DrainedHappiness(p: Plant, now: Millis): (h: int)
    ensures 0 <= h
    ensures p.lastVisited <= now && 0 <= p.happiness ==> h <= p.happiness
  {
    Round(MaxReal(0.0, p.happiness as real - HoursSince(p.lastVisited, now) * HappinessDrainPerHour))
  }

  /** The stage a plant's age allows: one stage per two days since planting, at most the final one. */
  function AgeStage(createdAt: Millis, now: Millis): (s: int)
    ensures s <= FinalStage
    ensures createdAt <= now ==> 0 <= s
  {
    MinInt(FinalStage, Floor(DaysSince(createdAt, now) / 2.0))
  }

  /**
    The health gate. It reads the water level and happiness the plant had
    BEFORE this tick drained them, not the drained values.
   */
  predicate GrowthGateOpen(p: Plant) {
    p.waterLevel > GrowthThreshold && p.happiness > GrowthThreshold && p.growthStage < FinalStage
  }

  /** The growth stage after a tick: recomputed from age when the gate is open, otherwise kept. */
  function GrownStage(p: Plant, now: Millis): (g: int)
    ensures g != p.growthStage ==> GrowthGateOpen(p)
    ensures GrowthGateOpen(p) ==> g == AgeStage(p.createdAt, now)
    ensures p.growthStage >= FinalStage ==> g == p.growthStage
    ensures GrowthGateOpen(p) && p.createdAt <= now ==> 0 <= g <= FinalStage
  {
    if GrowthGateOpen(p) then AgeStage(p.createdAt, now) else p.growthStage
  }

  /** `q` is `p` with at most water level, happiness and growth stage changed. */
  predicate OnlyStatsDiffer(p: Plant, q: Plant) {
    q == p.(waterLevel := q.waterLevel, happiness := q.happiness, growthStage := q.growthStage)
  }

  /** One plant through a tick, as the in-memory list receives it (`last_visited` is not touched). */
  function TickPlant(p: Plant, now: Millis): (q: Plant)
    ensures OnlyStatsDiffer(p, q)
    ensures StatsInRange(p) && p.lastWatered <= now && p.lastVisited <= now ==>
      StatsInRange(q) && q.waterLevel <= p.waterLevel && q.happiness <= p.happiness
    ensures q.growthStage != p.growthStage ==> GrowthGateOpen(p)
  {
    p.(waterLevel := DrainedWater(p, now),
       happiness := DrainedHappiness(p, now),
       growthStage := GrownStage(p, now))
  }

  /** The tick over the whole loaded list. */
  function Tick(plants: seq<Plant>, now: Millis): (r: seq<Plant>)
    ensures |r| == |plants|
    ensures forall i :: 0 <= i < |r| ==> r[i] == TickPlant(plants[i], now)
    ensures forall i :: 0 <= i < |r| ==> OnlyStatsDiffer(plants[i], r[i])
    ensures (forall i :: 0 <= i < |plants| ==>
               StatsInRange(plants[i]) && plants[i].lastWatered <= now && plants[i].lastVisited <= now) ==>
      forall i :: 0 <= i < |r| ==> StatsInRange(r[i])
  {
    seq(|plants|, i requires 0 <= i < |plants| => TickPlant(plants[i], now))
  }

  /** The fields the tick persists for a ticked plant: its new stats and `last_visited = now`. */
  function TickWrite(q: Plant, now: Millis): (u: StatsWrite)
    ensures ApplyStats(q, u) == q.(lastVisited := now)
  {
    StatsWrite(q.waterLevel, q.happiness, q.growthStage, now)
  }

  /** A store row after a tick's write for it. */
  function ApplyStats(row: Plant, u: StatsWrite): Plant {
    row.(waterLevel := u.waterLevel, happiness := u.happiness, growthStage := u.growthStage, lastVisited := u.lastVisited)
  }

  /** The batch of store updates a tick issues, one per ticked plant, in list order. */
  method PersistTick(updated: seq<Plant>, now: Millis) returns (writes: seq<Write<StatsWrite>>)
    ensures |writes| == |updated|
    ensures forall i :: 0 <= i < |updated| ==>
      writes[i].id == updated[i].id && ApplyStats(updated[i], writes[i].fields) == updated[i].(lastVisited := now)
  {
    writes := [];
    var k := 0;
    while k < |updated|
      invariant 0 <= k <= |updated|
      invariant |writes| == k
      invariant forall i :: 0 <= i < k ==>
        writes[i].id == updated[i].id && ApplyStats(updated[i], writes[i].fields) == updated[i].(lastVisited := now)
    {
      writes := writes + [Write(updated[k].id, TickWrite(updated[k], now))];
      k := k + 1;
    }
  }

  /**
    The stored row and the in-memory row part ways after a tick: the store
    receives `last_visited = now`, the in-memory plant keeps its old visit time.
   */
  lemma TickedMemoryLagsStore(p: Plant, now: Millis)
    ensures ApplyStats(p, TickWrite(TickPlant(p, now), now)) == TickPlant(p, now).(lastVisited := now)
    ensures TickPlant(p, now).lastVisited == p.lastVisited
    ensures TickPlant(p, now) == ApplyStats(p, TickWrite(TickPlant(p, now), now)) <==> p.lastVisited == now
  {
  }

  /**
    Because the in-memory plant keeps its old `last_visited`, a second in-memory
    tick drains happiness for the hours since that old visit again. A plant last
    visited at time 0 with happiness 100 is ticked at 10 h and at 20 h: in memory
    it ends at 70, while reloading the stored row before the second tick gives 80.
   */
  lemma RepeatedTicksRecountVisitHours(p: Plant)
    requires p.happiness == 100 && p.waterLevel == 100 && p.growthStage == 0
    requires p.lastVisited == 0 && p.lastWatered == 0 && p.createdAt == 0
    ensures TickPlant(p, 10 * MsPerHour).happiness == 90
    ensures TickPlant(TickPlant(p, 10 * MsPerHour), 20 * MsPerHour).happiness == 70
    ensures TickPlant(ApplyStats(p, TickWrite(TickPlant(p, 10 * MsPerHour), 10 * MsPerHour)), 20 * MsPerHour).happiness == 80
  {
    var q := TickPlant(p, 10 * MsPerHour);
    assert HoursSince(0, 10 * MsPerHour) == 10.0;
    assert HoursSince(0, 20 * MsPerHour) == 20.0;
    assert HoursSince(10 * MsPerHour, 20 * MsPerHour) == 10.0;
    RoundOfInteger(90);
    RoundOfInteger(70);
    RoundOfInteger(80);
  }

  /**
    No tick writes `last_watered`, in memory or in the store, so even a row
    reloaded from the store drains water for all hours since the last watering
    again. Watered at time 0 with level 100: the tick at 10 h stores 80, and
    ticking that stored row at 20 h gives 40, not 60.
   */
  lemma RepeatedTicksRecountWaterHours(p: Plant)
    requires p.waterLevel == 100 && p.lastWatered == 0
    ensures TickPlant(p, 10 * MsPerHour).waterLevel == 80
    ensures TickPlant(ApplyStats(p, TickWrite(TickPlant(p, 10 * MsPerHour), 10 * MsPerHour)), 20 * MsPerHour).waterLevel == 40
  {
  }

  /** Worked case: water and happiness full, watered and visited five hours ago. */
  lemma TickAfterFiveHours(p: Plant, now: Millis)
    requires p.waterLevel == 100 && p.happiness == 100
    requires p.lastWatered == now - 5 * MsPerHour && p.lastVisited == now - 5 * MsPerHour
    ensures TickPlant(p, now).waterLevel == 90
    ensures TickPlant(p, now).happiness == 95
  {
    assert HoursSince(now - 5 * MsPerHour, now) == 5.0;
    RoundOfInteger(90);
    RoundOfInteger(95);
  }

  /** With the clock behind the last watering, a tick ADDS water and can pass the ceiling. */
  lemma TickWithClockBehindOverfills(p: Plant)
    requires p.waterLevel == 100 && p.lastWatered == MsPerHour
    ensures TickPlant(p, 0).waterLevel == 102
  {
    assert HoursSince(MsPerHour, 0) == -1.0;
    RoundOfInteger(102);
  }

  // ---------------------------------------------------------------------------
  // Growth over time

  lemma AgeStageMonotone(createdAt: Millis, t0: Millis, t1: Millis)
    requires t0 <= t1
    ensures AgeStage(createdAt, t0) <= AgeStage(createdAt, t1)
  {
    assert DaysSince(createdAt, t0) <= DaysSince(createdAt, t1);
    FloorMonotone(DaysSince(createdAt, t0) / 2.0, DaysSince(createdAt, t1) / 2.0);
  }

  /** The growth invariant: a plant's stage is no more than its age allows at `now`. */
  predicate StageWithinAge(p: Plant, now: Millis) {
    p.growthStage <= AgeStage(p.createdAt, now)
  }

  /**
    A tick later than a time at which the growth invariant held never lowers
    the stage, and the invariant holds again at the tick's time.
   */
  lemma TickKeepsStageWithinAge(p: Plant, t0: Millis, now: Millis)
    requires StageWithinAge(p, t0) && t0 <= now
    ensures p.growthStage <= TickPlant(p, now).growthStage
    ensures StageWithinAge(TickPlant(p, now), now)
  {
    AgeStageMonotone(p.createdAt, t0, now);
  }

  /** A plant ticked at each of the given times in turn. */
  function TickSeries(p: Plant, times: seq<Millis>): Plant
    decreases |times|
  {
    if |times| == 0 then p else TickSeries(TickPlant(p, times[0]), times[1..])
  }

  predicate NonDecreasingFrom(t0: Millis, times: seq<Millis>) {
    (forall i :: 0 <= i < |times| ==> t0 <= times[i]) &&
    (forall i, j :: 0 <= i <= j < |times| ==> times[i] <= times[j])
  }

  /**
    Over any run of ticks whose times do not go backwards, the growth stage
    never decreases and never exceeds what the age at the last tick allows.
   */
  lemma {:induction false} TickSeriesGrowsMonotonically(p: Plant, t0: Millis, times: seq<Millis>)
    requires StageWithinAge(p, t0)
    requires NonDecreasingFrom(t0, times)
    ensures p.growthStage <= TickSeries(p, times).growthStage
    ensures |times| > 0 ==> StageWithinAge(TickSeries(p, times), times[|times| - 1])
    decreases |times|
  {
    if |times| > 0 {
      var q := TickPlant(p, times[0]);
      TickKeepsStageWithinAge(p, t0, times[0]);
      assert NonDecreasingFrom(times[0], times[1..]);
      TickSeriesGrowsMonotonically(q, times[0], times[1..]);
      if |times| > 1 {
        assert times[1..][|times[1..]| - 1] == times[|times| - 1];
      }
    }
  }

  // ---------------------------------------------------------------------------
  // Planting

  /** A random draw `r` in [0, 1) placed on the 10..90 percent strip and rounded. */
  function Position(r: real): (c: int)
    requires 0.0 <= r < 1.0
    ensures 10 <= c <= 90
  {
    RoundWithin(r * 80.0 + 10.0, 10, 90);
    Round(r * 80.0 + 10.0)
  }

  /** A draw that lands on cell `c`. */
  function DrawFor(c: int): real {
    if c <= 10 then 0.0 else ((c - 10) as real - 0.25) / 80.0
  }

  /** Every cell of 10..90 is reachable: the rounded placement covers the whole range. */
  lemma PositionCoversRange(c: int)
    requires 10 <= c <= 90
    ensures 0.0 <= DrawFor(c) < 1.0 && Position(DrawFor(c)) == c
  {
    if c > 10 {
      assert DrawFor(c) * 80.0 + 10.0 == c as real - 0.25;
    }
  }

  /** The row `addPlant` inserts, from the garden, the chosen kind and two random draws. */
  function NewPlantRow(gardenId: string, kind: PlantType, rx: real, ry: real): (n: NewPlant)
    requires 0.0 <= rx < 1.0 && 0.0 <= ry < 1.0
    ensures n.gardenId == gardenId && n.kind == kind
    ensures n.growthStage == 0 && n.waterLevel == Full && n.happiness == Full
    ensures 10 <= n.positionX <= 90 && 10 <= n.positionY <= 90
  {
    NewPlant(gardenId, kind, Position(rx), Position(ry), 0, 100, 100)
  }

  /** The stored row `row` carries the values of the inserted row `n`. */
  predicate StoredAs(row: Plant, n: NewPlant) {
    row.gardenId == n.gardenId && row.kind == n.kind &&
    row.positionX == n.positionX && row.positionY == n.positionY &&
    row.growthStage == n.growthStage && row.waterLevel == n.waterLevel && row.happiness == n.happiness
  }

  /** A freshly stored plant satisfies the range and growth invariants from its creation time on. */
  lemma NewPlantStartsValid(row: Plant, gardenId: string, kind: PlantType, rx: real, ry: real, now: Millis)
    requires 0.0 <= rx < 1.0 && 0.0 <= ry < 1.0
    requires StoredAs(row, NewPlantRow(gardenId, kind, rx, ry))
    requires row.createdAt <= now
    ensures StatsInRange(row) && StageWithinAge(row, now)
    ensures 10 <= row.positionX <= 90 && 10 <= row.positionY <= 90
  {
  }

  /**
    The list after `addPlant`: the row the store returned is appended; on an
    error, or when no row comes back, the list is unchanged.
   */
  function AddPlant(plants: seq<Plant>, inserted: Option<Plant>): (r: seq<Plant>)
    ensures inserted.None? ==> r == plants
    ensures inserted.Some? ==> |r| == |plants| + 1 && r[..|plants|] == plants && r[|plants|] == inserted.value
  {
    match inserted
    case None => plants
    case Some(row) => plants + [row]
  }

  // ---------------------------------------------------------------------------
  // Watering and caring

  /** The water level after watering: 30 more, capped at the ceiling. */
  function Watered(w: int): (r: int)
    ensures r <= Full
    ensures w <= Full ==> w <= r
    ensures r == Full <==> Full - WaterGain <= w
    ensures r < Full ==> r == w + WaterGain
  {
    MinInt(Full, w + WaterGain)
  }

  /** The happiness after caring: 20 more, capped at the ceiling. */
  function Cared(h: int): (r: int)
    ensures r <= Full
    ensures h <= Full ==> h <= r
    ensures r == Full <==> Full - CareGain <= h
    ensures r < Full ==> r == h + CareGain
  {
    MinInt(Full, h + CareGain)
  }

  lemma WateringIdempotentAtFull(w: int)
    requires Full - WaterGain <= w <= Full
    ensures Watered(w) == Full && Watered(Watered(w)) == Full
  {
  }

  lemma CaringIdempotentAtFull(h: int)
    requires Full - CareGain <= h <= Full
    ensures Cared(h) == Full && Cared(Cared(h)) == Full
  {
  }

  predicate OnlyWaterDiffers(p: Plant, q: Plant) {
    q == p.(waterLevel := q.waterLevel)
  }

  predicate OnlyHappinessDiffers(p: Plant, q: Plant) {
    q == p.(happiness := q.happiness)
  }

  /**
    `waterPlant(target)` on the view. The new level is computed from `target`
    (the plant the dialog holds) and given to every listed plant with its id;
    `last_watered` is only written to the store. The dialog then shows `target`
    with the new level.
   */
  function WaterPlant(v: View, target: Plant, stored: bool): (u: View)
    ensures !stored ==> u == v
    ensures stored ==> |u.plants| == |v.plants|
    ensures stored ==> u.selected == Some(target.(waterLevel := Watered(target.waterLevel)))
    ensures stored ==> forall i :: 0 <= i < |v.plants| ==>
      OnlyWaterDiffers(v.plants[i], u.plants[i]) &&
      (v.plants[i].id == target.id ==> u.plants[i].waterLevel == Watered(target.waterLevel)) &&
      (v.plants[i].id != target.id ==> u.plants[i] == v.plants[i])
  {
    if !stored then v
    else
      var w := Watered(target.waterLevel);
      View(seq(|v.plants|, i requires 0 <= i < |v.plants| =>
             if v.plants[i].id == target.id then v.plants[i].(waterLevel := w) else v.plants[i]),
           Some(target.(waterLevel := w)))
  }

  /** `carePlant(target)` on the view: as watering, for happiness. */
  function CarePlant(v: View, target: Plant, stored: bool): (u: View)
    ensures !stored ==> u == v
    ensures stored ==> |u.plants| == |v.plants|
    ensures stored ==> u.selected == Some(target.(happiness := Cared(target.happiness)))
    ensures stored ==> forall i :: 0 <= i < |v.plants| ==>
      OnlyHappinessDiffers(v.plants[i], u.plants[i]) &&
      (v.plants[i].id == target.id ==> u.plants[i].happiness == Cared(target.happiness)) &&
      (v.plants[i].id != target.id ==> u.plants[i] == v.plants[i])
  {
    if !stored then v
    else
      var h := Cared(target.happiness);
      View(seq(|v.plants|, i requires 0 <= i < |v.plants| =>
             if v.plants[i].id == target.id then v.plants[i].(happiness := h) else v.plants[i]),
           Some(target.(happiness := h)))
  }

  /** The store update watering issues. */
  function WaterPlantWrite(target: Plant, now: Millis): (u: Write<WaterWrite>)
    ensures u.id == target.id
    ensures ApplyWater(target, u.fields) == target.(waterLevel := Watered(target.waterLevel), lastWatered := now)
  {
    Write(target.id, WaterWrite(Watered(target.waterLevel), now))
  }

  function ApplyWater(row: Plant, u: WaterWrite): Plant {
    row.(waterLevel := u.waterLevel, lastWatered := u.lastWatered)
  }

  /** The store update caring issues. */
  function CarePlantWrite(target: Plant): (u: Write<CareWrite>)
    ensures u.id == target.id
    ensures ApplyCare(target, u.fields) == target.(happiness := Cared(target.happiness))
  {
    Write(target.id, CareWrite(Cared(target.happiness)))
  }

  function ApplyCare(row: Plant, u: CareWrite): Plant {
    row.(happiness := u.happiness)
  }

  /**
    After watering, the stored row has `last_watered = now` while the plant the
    view shows keeps its old watering time. Caring writes exactly what the view shows.
   */
  lemma WateredMemoryLagsStore(v: View, target: Plant, now: Millis)
    ensures WaterPlant(v, target, true).selected ==
      Some(ApplyWater(target, WaterPlantWrite(target, now).fields).(lastWatered := target.lastWatered))
    ensures ApplyWater(target, WaterPlantWrite(target, now).fields).lastWatered == now
    ensures CarePlant(v, target, true).selected == Some(ApplyCare(target, CarePlantWrite(target).fields))
  {
  }

  /** Worked case: watering a plant at 80 gives 100, not 110, and stamps the watering time in the store. */
  lemma WaterFromEighty(target: Plant, now: Millis)
    requires target.waterLevel == 80
    ensures WaterPlantWrite(target, now).fields == WaterWrite(100, now)
  {
  }

  // ---------------------------------------------------------------------------
  // Removal

  /** The plants whose id is not `id`, in their original order. */
  function WithoutId(plants: seq<Plant>, id: string): (r: seq<Plant>)
    ensures forall p :: p in r <==> p in plants && p.id != id
    ensures |r| <= |plants|
    decreases |plants|
  {
    if |plants| == 0 then []
    else (if plants[0].id == id then [] else [plants[0]]) + WithoutId(plants[1..], id)
  }

  /** How many listed plants carry the id. */
  function CountId(plants: seq<Plant>, id: string): nat
    decreases |plants|
  {
    if |plants| == 0 then 0 else (if plants[0].id == id then 1 else 0) + CountId(plants[1..], id)
  }

  /** Filtering by id splits over concatenation, so the kept plants stay in their relative order. */
  lemma {:induction false} WithoutIdSplits(a: seq<Plant>, b: seq<Plant>, id: string)
    ensures WithoutId(a + b, id) == WithoutId(a, id) + WithoutId(b, id)
    decreases |a|
  {
    if |a| == 0 {
      assert a + b == b;
    } else {
      assert (a + b)[1..] == a[1..] + b;
      WithoutIdSplits(a[1..], b, id);
    }
  }

  /** Exactly the plants with the id are dropped. */
  lemma {:induction false} WithoutIdDropsCount(plants: seq<Plant>, id: string)
    ensures |WithoutId(plants, id)| + CountId(plants, id) == |plants|
    decreases |plants|
  {
    if |plants| > 0 {
      WithoutIdDropsCount(plants[1..], id);
    }
  }

  /** A list without the id is left as it is; in particular removing twice is removing once. */
  lemma {:induction false} WithoutIdKeepsCleanList(plants: seq<Plant>, id: string)
    requires forall p :: p in plants ==> p.id != id
    ensures WithoutId(plants, id) == plants
    decreases |plants|
  {
    if |plants| > 0 {
      assert plants == [plants[0]] + plants[1..];
      assert forall p :: p in plants[1..] ==> p in plants;
      WithoutIdKeepsCleanList(plants[1..], id);
    }
  }

  /** `removePlant(target)` on the view: every plant with the target's id leaves the list and the dialog closes. */
  function RemovePlant(v: View, target: Plant, stored: bool): (u: View)
    ensures !stored ==> u == v
    ensures stored ==> u.selected.None?
    ensures stored ==> forall p :: p in u.plants <==> p in v.plants && p.id != target.id
    ensures stored ==> |u.plants| + CountId(v.plants, target.id) == |v.plants|
  {
    if !stored then v
    else
      WithoutIdDropsCount(v.plants, target.id);
      View(WithoutId(v.plants, target.id), None)
  }

  lemma RemoveIsIdempotent(v: View, target: Plant)
    ensures RemovePlant(RemovePlant(v, target, true), target, true) == RemovePlant(v, target, true)
  {
    WithoutIdKeepsCleanList(WithoutId(v.plants, target.id), target.id);
  }
}
