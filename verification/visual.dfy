/**
  How a plant is drawn in the garden: a pure projection of its kind, growth
  stage, water level and happiness onto a health flag, a glyph, a size and two
  small indicators. Glyphs are an enumeration; rendering them is not modelled.
 */
module Visual {
  import opened JsMath
  import opened Schema

  /** The glyphs a plant can be drawn with. */
  datatype Glyph =
    | Seedling       // young shoot, every kind at stage 0
    | Sprout         // every kind at stage 1
    | Shamrock
    | CherryBlossom
    | Hibiscus
    | Sunflower
    | PottedPlant
    | DeciduousTree
    | Evergreen
    | PalmTree
    | Cactus
    | MushroomCap
    | Wilted         // the override for an unhealthy grown plant

  /** Below or at this, water or happiness makes the plant unhealthy. */
  const HealthThreshold: int := 30
  /** Below this water level a drop is drawn next to the plant. */
  const LowWaterThreshold: int := 30
  /** Above this happiness a healthy, grown plant sparkles. */
  const SparkleHappiness: int := 80
  const SparkleStage: int := 3

  const BaseSize: real := 2.0
  const SizePerStage: real := 0.5

  /** The stage the drawing uses: the growth stage with anything above the final stage drawn as the final one. */
  function DisplayStage(growthStage: int): (s: int)
    ensures s <= FinalStage
    ensures s == growthStage || (growthStage > FinalStage && s == FinalStage)
  {
    MinInt(growthStage, FinalStage)
  }

  predicate IsHealthy(waterLevel: int, happiness: int) {
    waterLevel > HealthThreshold && happiness > HealthThreshold
  }

  /**
    The kind's own glyph at a display stage. Each kind tests stages 0 to 4 in
    turn and otherwise falls to its final glyph, which a negative stage also reaches.
   */
  function KindGlyph(kind: PlantType, stage: int): (g: Glyph)
    ensures g != Wilted
    ensures stage == 0 ==> g == Seedling
    ensures stage == 1 ==> g == Sprout
  {
    match kind
    case Flower =>
      if stage == 0 then Seedling
      else if stage == 1 then Sprout
      else if stage == 2 then Shamrock
      else if stage == 3 then CherryBlossom
      else if stage == 4 then Hibiscus
      else Sunflower
    case Tree =>
      if stage == 0 then Seedling
      else if stage == 1 then Sprout
      else if stage == 2 then PottedPlant
      else if stage == 3 then DeciduousTree
      else if stage == 4 then Evergreen
      else PalmTree
    case Succulent =>
      if stage == 0 then Seedling
      else if stage == 1 then Sprout
      else if stage == 2 then PottedPlant
      else if stage == 3 then Cactus
      else if stage == 4 then Cactus
      else Cactus
    case Mushroom =>
      if stage == 0 then Seedling
      else if stage == 1 then Sprout
      else if stage == 2 then MushroomCap
      else if stage == 3 then MushroomCap
      else if stage == 4 then MushroomCap
      else MushroomCap
  }

  /** The glyph drawn: wilted when the plant is unhealthy past stage 0, the kind's own glyph otherwise. */
  function PlantGlyph(kind: PlantType, growthStage: int, waterLevel: int, happiness: int): (g: Glyph)
    ensures g == Wilted <==> !IsHealthy(waterLevel, happiness) && DisplayStage(growthStage) > 0
    ensures growthStage == 0 ==> g == Seedling
  {
    var stage := DisplayStage(growthStage);
    if !IsHealthy(waterLevel, happiness) && stage > 0 then Wilted else KindGlyph(kind, stage)
  }

  /** The font size in rem. */
  function Size(growthStage: int): (s: real)
    ensures 0 <= growthStage ==> BaseSize <= s <= BaseSize + FinalStage as real * SizePerStage
    ensures FinalStage <= growthStage ==> s == BaseSize + FinalStage as real * SizePerStage
    ensures growthStage < 0 ==> s < BaseSize
  {
    BaseSize + DisplayStage(growthStage) as real * SizePerStage
  }

  predicate ShowsWaterDrop(waterLevel: int) {
    waterLevel < LowWaterThreshold
  }

  predicate ShowsSparkle(growthStage: int, waterLevel: int, happiness: int) {
    happiness > SparkleHappiness && IsHealthy(waterLevel, happiness) && DisplayStage(growthStage) >= SparkleStage
  }

  /** Everything the garden draws for one plant; `faded` is the reduced opacity of an unhealthy plant. */
  datatype Appearance = Appearance(
    healthy: bool,
    faded: bool,
    glyph: Glyph,
    size: real,
    waterDrop: bool,
    sparkle: bool)

  function Render(kind: PlantType, growthStage: int, waterLevel: int, happiness: int): (a: Appearance)
    ensures a.faded <==> !a.healthy
    ensures a.waterDrop ==> !a.healthy
    ensures a.sparkle ==> a.healthy && a.glyph != Wilted && a.glyph != Seedling && a.glyph != Sprout
  {
    Appearance(
      IsHealthy(waterLevel, happiness),
      !IsHealthy(waterLevel, happiness),
      PlantGlyph(kind, growthStage, waterLevel, happiness),
      Size(growthStage),
      ShowsWaterDrop(waterLevel),
      ShowsSparkle(growthStage, waterLevel, happiness))
  }

  function RenderPlant(p: Plant): Appearance {
    Render(p.kind, p.growthStage, p.waterLevel, p.happiness)
  }

  /**
    The drawing reads only kind, growth stage, water level and happiness. This
    holds by construction: `Render` takes exactly those four values.
   */
  lemma RenderReadsFourFields(p: Plant, q: Plant)
    requires p.kind == q.kind && p.growthStage == q.growthStage
    requires p.waterLevel == q.waterLevel && p.happiness == q.happiness
    ensures RenderPlant(p) == RenderPlant(q)
  {
  }

  /** Every growth stage at or above the final one is drawn exactly as the final stage. */
  lemma RenderSaturatesAtFinalStage(kind: PlantType, growthStage: int, waterLevel: int, happiness: int)
    requires FinalStage <= growthStage
    ensures Render(kind, growthStage, waterLevel, happiness) == Render(kind, FinalStage, waterLevel, happiness)
  {
  }

  /** Worked case: water 20, happiness 90, stage 2 is unhealthy and wilted, whatever the kind. */
  lemma DryPlantWilts(kind: PlantType)
    ensures !Render(kind, 2, 20, 90).healthy
    ensures Render(kind, 2, 20, 90).glyph == Wilted
  {
  }

  /** A cactus is drawn exactly for a succulent at display stage 3 or more while healthy, or at a negative stage. */
  lemma CactusExactly(kind: PlantType, growthStage: int, waterLevel: int, happiness: int)
    ensures PlantGlyph(kind, growthStage, waterLevel, happiness) == Cactus <==>
      kind == Succulent &&
      ((growthStage >= 3 && IsHealthy(waterLevel, happiness)) || growthStage < 0)
  {
  }

  /** A mushroom cap is drawn exactly for a mushroom at display stage 2 or more while healthy, or at a negative stage. */
  lemma MushroomCapExactly(kind: PlantType, growthStage: int, waterLevel: int, happiness: int)
    ensures PlantGlyph(kind, growthStage, waterLevel, happiness) == MushroomCap <==>
      kind == Mushroom &&
      ((growthStage >= 2 && IsHealthy(waterLevel, happiness)) || growthStage < 0)
  {
  }

  /** Flowers and trees have six different glyphs for their six stages. */
  lemma FlowerAndTreeStagesDistinct(kind: PlantType, s: int, t: int)
    requires kind == Flower || kind == Tree
    requires 0 <= s < t <= FinalStage
    ensures KindGlyph(kind, s) != KindGlyph(kind, t)
  {
  }

  /** A negative growth stage is never wilted and shows the kind's final glyph, at less than the base size. */
  lemma NegativeStageShowsFinalGlyph(kind: PlantType, growthStage: int, waterLevel: int, happiness: int)
    requires growthStage < 0
    ensures PlantGlyph(kind, growthStage, waterLevel, happiness) == KindGlyph(kind, FinalStage)
    ensures Size(growthStage) < BaseSize
  {
  }

  lemma SizeMonotone(s: int, t: int)
    requires s <= t
    ensures Size(s) <= Size(t)
  {
  }

  /**
    The water drop and the health flag use different bounds: a plant is
    unhealthy yet shows no drop exactly when its water is at least 30 and
    either the water is exactly 30 or the happiness is at most 30.
   */
  lemma UnhealthyWithoutDrop(waterLevel: int, happiness: int)
    ensures !IsHealthy(waterLevel, happiness) && !ShowsWaterDrop(waterLevel) <==>
      waterLevel == LowWaterThreshold || (waterLevel > LowWaterThreshold && happiness <= HealthThreshold)
  {
  }
}
