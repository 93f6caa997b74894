/**
  The plant detail dialog: the kind's display name, the growth stage's label,
  and when the Water and Care buttons are enabled.
 */
module Modal {
  import opened JsMath
  import opened Schema

  function PlantName(kind: PlantType): (name: string)
    ensures |name| > 0 && 'A' <= name[0] <= 'Z'
  {
    match kind
    case Flower => "Flower"
    case Tree => "Tree"
    case Succulent => "Succulent"
    case Mushroom => "Mushroom"
  }

  const StageLabels: seq<string> := ["Seed", "Sprout", "Seedling", "Young", "Mature", "Blooming"]

  /**
    The label of a growth stage: the list entry at the stage, with every stage
    above the final one labelled as the final one. A negative stage indexes
    before the list and has no label (`undefined` in the dialog).
   */
  function StageLabel(growthStage: int): (name: Option<string>)
    ensures name.Some? <==> 0 <= growthStage
    ensures name.Some? ==> name.value in StageLabels
    ensures growthStage == 0 ==> name == Some("Seed")
    ensures FinalStage <= growthStage ==> name == Some("Blooming")
  {
    var i := MinInt(growthStage, FinalStage);
    if 0 <= i < |StageLabels| then Some(StageLabels[i]) else None
  }

  /** The Water button is disabled once the water level reaches the ceiling. */
  predicate WaterEnabled(waterLevel: int) {
    !(waterLevel >= Full)
  }

  /** The Care button is disabled once happiness reaches the ceiling. */
  predicate CareEnabled(happiness: int) {
    !(happiness >= Full)
  }

  lemma PlantNamesDistinct(a: PlantType, b: PlantType)
    requires a != b
    ensures PlantName(a) != PlantName(b)
  {
  }

  /** The six stages 0..5 have six different labels. */
  lemma StageLabelsDistinct(s: int, t: int)
    requires 0 <= s < t <= FinalStage
    ensures StageLabel(s) != StageLabel(t)
  {
  }
}
