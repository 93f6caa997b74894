/**
  The two record shapes the application reads from and writes to its store:
  a garden (one per user) and a plant. Timestamps, which the store exchanges as
  ISO strings, are integer milliseconds since the epoch here.
 */
module Schema {

  datatype Option<T> = None | Some(value: T)

  /** The four kinds of plant a garden can hold. */
  datatype PlantType = Flower | Tree | Succulent | Mushroom

  /** Milliseconds since the epoch. */
  type Millis = int

  datatype Garden = Garden(id: string, userId: string, name: string, createdAt: Millis)

  /**
    A plant row. Every value the program writes to the numeric fields is an
    integer (a rounded number, a constant, or an integer plus a constant), so
    they are `int`.
   */
  datatype Plant = Plant(
    id: string,
    gardenId: string,
    kind: PlantType,
    positionX: int,
    positionY: int,
    growthStage: int,
    waterLevel: int,
    happiness: int,
    lastWatered: Millis,
    lastVisited: Millis,
    createdAt: Millis)

  /** The last of the six growth stages. */
  const FinalStage: int := 5
  /** The ceiling of the water and happiness scales. */
  const Full: int := 100

  const MsPerHour: int := 1000 * 60 * 60
  const MsPerDay: int := 1000 * 60 * 60 * 24

  /** Water level and happiness lie on the 0..100 scale the interface shows. */
  predicate StatsInRange(p: Plant) {
    0 <= p.waterLevel <= Full && 0 <= p.happiness <= Full
  }
}
