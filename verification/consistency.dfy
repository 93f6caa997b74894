/**
  Facts that tie the simulation to the dialog and the drawing: the buttons
  are enabled exactly when pressing them has an effect, a new plant is drawn
  as a healthy seedling, and the tick keeps a stage the dialog can label.
 */
module Consistency {
  import opened Schema
  import opened Simulation
  import opened Visual
  import opened Modal

  /** On the 0..100 scale the Water button is enabled exactly when watering raises the level. */
  lemma WaterButtonMatchesEffect(waterLevel: int)
    requires 0 <= waterLevel <= Full
    ensures WaterEnabled(waterLevel) <==> Watered(waterLevel) != waterLevel
    ensures WaterEnabled(waterLevel) ==> waterLevel < Watered(waterLevel)
  {
  }

  /** On the 0..100 scale the Care button is enabled exactly when caring raises happiness. */
  lemma CareButtonMatchesEffect(happiness: int)
    requires 0 <= happiness <= Full
    ensures CareEnabled(happiness) <==> Cared(happiness) != happiness
    ensures CareEnabled(happiness) ==> happiness < Cared(happiness)
  {
  }

  /** The plant that watering puts in the dialog has its Water button disabled exactly when it reached the ceiling. */
  lemma WateredSelectionDisablesButtonAtCeiling(v: View, target: Plant)
    ensures WaterPlant(v, target, true).selected.Some?
    ensures !WaterEnabled(WaterPlant(v, target, true).selected.value.waterLevel) <==>
      Full - WaterGain <= target.waterLevel
  {
  }

  /** A freshly stored plant is drawn as a healthy seedling of base size, labelled "Seed", with both buttons disabled. */
  lemma NewPlantShowsHealthySeed(row: Plant, gardenId: string, kind: PlantType, rx: real, ry: real)
    requires 0.0 <= rx < 1.0 && 0.0 <= ry < 1.0
    requires StoredAs(row, NewPlantRow(gardenId, kind, rx, ry))
    ensures RenderPlant(row) == Appearance(true, false, Seedling, BaseSize, false, false)
    ensures StageLabel(row.growthStage) == Some("Seed")
    ensures !WaterEnabled(row.waterLevel) && !CareEnabled(row.happiness)
  {
  }

  /** A tick at or after planting keeps a non-negative stage non-negative, so the dialog can always label it. */
  lemma TickKeepsStageLabelled(p: Plant, now: Millis)
    requires 0 <= p.growthStage && p.createdAt <= now
    ensures 0 <= TickPlant(p, now).growthStage
    ensures StageLabel(TickPlant(p, now).growthStage).Some?
  {
  }

  /**
    A tick whose clock lies before the creation time: with the gate open the
    stage is recomputed from a negative age, giving -1, which the drawing shows
    as the kind's final glyph and the dialog cannot label. With the gate closed
    (here water at 40) the stage is kept.
   */
  lemma TickBeforeCreationGoesNegative(p: Plant, now: Millis)
    requires p.waterLevel == 100 && p.happiness == 100 && p.growthStage == 0
    requires p.createdAt == now + 1
    ensures TickPlant(p, now).growthStage == -1
    ensures PlantGlyph(p.kind, -1, TickPlant(p, now).waterLevel, TickPlant(p, now).happiness) == KindGlyph(p.kind, FinalStage)
    ensures StageLabel(TickPlant(p, now).growthStage).None?
    ensures TickPlant(p.(waterLevel := 40, growthStage := 2), now).growthStage == 2
  {
  }

  /** A plant that reached the final stage is drawn the same after any tick, as far as its stage goes. */
  lemma FinalStageSurvivesTick(p: Plant, now: Millis)
    requires FinalStage <= p.growthStage
    ensures TickPlant(p, now).growthStage == p.growthStage
    ensures Size(TickPlant(p, now).growthStage) == Size(FinalStage)
    ensures StageLabel(TickPlant(p, now).growthStage) == Some("Blooming")
  {
  }
}
