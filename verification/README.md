# Virtual garden: plant simulation model

A Dafny model of the plant simulation behind a small "virtual garden" web
application. A user's garden holds plants of four kinds: flower, tree,
succulent and mushroom. Each plant has a growth stage, a water level, a
happiness level and three timestamps. The interface shows the stage on a 0 to 5
scale and water and happiness on a 0 to 100 scale. A tick whose clock lies
behind a stored timestamp can leave those scales (see below). The model covers:

- **The periodic tick.** Water drains by 2 per hour since the last watering.
  Happiness drains by 1 per hour since the last visit. Both are floored at 0
  and rounded. A health gate then recomputes the growth stage from the plant's
  age: one stage per two days, at most 5.
- **Planting.** The inserted row and its rounded random position.
- **Water, care and remove.** Each is an update of the in-memory plant list by
  plant id, plus, for water and care, the fields the store is sent.
- **The drawing.** A health flag, a glyph with a "wilted" override, a size, a
  low-water drop and a sparkle, all derived from four fields.
- **The detail dialog.** The kind's name, the stage label, and when the Water
  and Care buttons are enabled.

Files and modules:

| file | module | models |
|---|---|---|
| `jsmath.dfy` | `JsMath` | `Math.floor`, `Math.round`, `Math.min`, `Math.max` on exact reals |
| `schema.dfy` | `Schema` | the `Plant` and `Garden` records of `src/lib/supabase.ts` |
| `simulation.dfy` | `Simulation` | `src/components/Garden.tsx`: tick, planting, water, care, remove |
| `visual.dfy` | `Visual` | `src/components/PlantVisual.tsx` |
| `modal.dfy` | `Modal` | `src/components/PlantModal.tsx` |
| `consistency.dfy` | `Consistency` | facts linking the three components |

Representation choices:

- Timestamps are integer milliseconds. Elapsed hours and days are `real`.
- `Math.round(x)` is `Floor(x + 0.5)`. `Math.random()` is a parameter `r` with `0 <= r < 1`.
- The water level, happiness, growth stage and positions are `int`. Every value
  the program writes to them is an integer: a rounded number, a constant, or an
  integer plus 30 or 20.
- The growth stage is not restricted to be non-negative. A tick whose growth
  gate is open and whose clock lies before the plant's creation time computes a
  negative stage. For example, a fresh plant (water 100, happiness 100, stage 0)
  ticked 1 ms before its creation time gets stage -1. A tick with the gate
  closed keeps the stage whatever the clock says. The drawing then
  falls through to the kind's final glyph. The dialog's label lookup reads
  before the start of its list, which gives `None` here.
- A store call's error branch is a `stored` flag. On an error the action
  returns before changing any in-memory state. For planting, the row the store
  returns is an `Option<Plant>`.
- Four behaviours of the code are easy to misread:
  - The growth gate tests the water level and happiness from before the tick.
  - The in-memory tick result keeps `last_visited`. Only the store receives `last_visited = now`.
  - The in-memory watering result keeps `last_watered`. Only the store receives the new time.
  - No tick writes `last_watered`, in memory or in the store.

  `TickedMemoryLagsStore`, `RepeatedTicksRecountVisitHours`,
  `RepeatedTicksRecountWaterHours` and `WateredMemoryLagsStore` state the consequences.

## Model

| member | source | states |
|---|---|---|
| `JsMath.Floor` | src/components/Garden.tsx:53 | the result is the greatest integer not above the argument |
| `JsMath.Round` | src/components/Garden.tsx:58-59 | the result is within one half of the argument, ties going up |
| `JsMath.MaxReal` | src/components/Garden.tsx:47-48 | the result is one of the two arguments and at least both |
| `JsMath.MinInt` | src/components/Garden.tsx:53 | the result is one of the two arguments and at most both |
| `Simulation.HoursSince` | src/components/Garden.tsx:41-45 | elapsed hours are non-negative exactly when the timestamp is not after now |
| `Simulation.DaysSince` | src/components/Garden.tsx:52 | elapsed days are non-negative exactly when the plant was created no later than now |
| `Simulation.DrainedWater` | src/components/Garden.tsx:44-47 | the drained and rounded water level is never negative; for a non-negative level and a clock not before the last watering it is at most the old level, however much time passed |
| `Simulation.DrainedHappiness` | src/components/Garden.tsx:41-48 | the drained and rounded happiness is never negative; for a non-negative value and a clock not before the last visit it is at most the old value |
| `Simulation.AgeStage` | src/components/Garden.tsx:52-53 | the stage age allows is at most 5, and at least 0 once the plant has been created |
| `Simulation.GrownStage` | src/components/Garden.tsx:50-54 | the stage changes only when the pre-tick water and happiness exceed 50 and the stage is below 5; a stage of 5 or more never changes; with the gate open the stage becomes the one age allows, whatever it was, and that lies in 0..5 once the clock is not before creation |
| `Simulation.TickPlant` | src/components/Garden.tsx:40-61 | a tick changes only water, happiness and stage; it keeps both on the 0..100 scale and never raises them while the clocks are not after now; the stage changes only through the gate |
| `Simulation.Tick` | src/components/Garden.tsx:38-62 | the ticked list has the same length and order; each plant differs from its input only in the three stats; if every input is in range and was last watered and visited no later than now, every output is in range |
| `Simulation.TickWrite` | src/components/Garden.tsx:67-72 | applied to the ticked row, the written fields change only `last_visited`, to now |
| `Simulation.PersistTick` | src/components/Garden.tsx:64-74 | one update per ticked plant, in order, for the plant's id; applied to the ticked row, it yields that row with `last_visited = now` |
| `Simulation.TickedMemoryLagsStore` | src/components/Garden.tsx:56-71 | after a tick, the stored row is the in-memory row with `last_visited = now`; the in-memory row keeps the old visit time, so they agree exactly when the last visit was at now |
| `Simulation.RepeatedTicksRecountVisitHours` | src/components/Garden.tsx:41-71 | two in-memory ticks at 10 h and 20 h take happiness 100 to 90 and then 70; ticking the stored row at 20 h gives 80 |
| `Simulation.RepeatedTicksRecountWaterHours` | src/components/Garden.tsx:44-72 | the tick writes no `last_watered`, so a stored row recounts water hours: 100 becomes 80 at 10 h, and the stored 80 ticked at 20 h becomes 40 |
| `Simulation.TickAfterFiveHours` | src/components/Garden.tsx:41-59 | full water and happiness, watered and visited five hours ago, tick to 90 and 95 |
| `Simulation.TickWithClockBehindOverfills` | src/components/Garden.tsx:44-47 | with the clock an hour before the last watering, a tick raises water 100 to 102, so the bound needs the clock not to be behind |
| `Simulation.GrowthGateOpen` | src/components/Garden.tsx:51 | definition, no contract: pre-tick water and happiness above 50 and stage below 5 |
| `Simulation.AgeStageMonotone` | src/components/Garden.tsx:52-53 | the stage age allows never decreases as time moves forward |
| `Simulation.TickKeepsStageWithinAge` | src/components/Garden.tsx:50-54 | if the stage was within what age allowed at an earlier time, a tick never lowers it and it stays within what age allows at the tick's time |
| `Simulation.TickSeriesGrowsMonotonically` | src/components/Garden.tsx:50-54 | over any sequence of ticks with non-decreasing times, the stage never decreases and ends within what the age at the last tick allows |
| `Simulation.Position` | src/components/Garden.tsx:80-89 | a draw in [0, 1) scaled to 10..90 and rounded lands in 10..90 |
| `Simulation.PositionCoversRange` | src/components/Garden.tsx:80-89 | every cell 10..90 is produced by some draw in [0, 1) |
| `Simulation.NewPlantRow` | src/components/Garden.tsx:79-93 | the inserted row has the garden and kind given, stage 0, water 100, happiness 100, and positions in 10..90 |
| `Simulation.NewPlantStartsValid` | src/components/Garden.tsx:85-93 | a stored new plant is in range and satisfies the growth invariant at any time from its creation on |
| `Simulation.AddPlant` | src/components/Garden.tsx:97-105 | on an error or no row, the list is unchanged; otherwise the returned row is appended after the unchanged old list |
| `Simulation.Watered` | src/components/Garden.tsx:109 | watering never passes 100 and never lowers a level up to 100; it reaches 100 exactly from 70 up, and below 100 it adds 30 |
| `Simulation.Cared` | src/components/Garden.tsx:129 | caring never passes 100 and never lowers happiness up to 100; it reaches 100 exactly from 80 up, and below 100 it adds 20 |
| `Simulation.WateringIdempotentAtFull` | src/components/Garden.tsx:109 | from 70 to 100, watering gives 100 and watering again keeps 100 |
| `Simulation.CaringIdempotentAtFull` | src/components/Garden.tsx:129 | from 80 to 100, caring gives 100 and caring again keeps 100 |
| `Simulation.WaterPlant` | src/components/Garden.tsx:108-126 | on an error nothing changes; otherwise the list keeps its length; only plants with the target's id change, and only in water level, which becomes the target's watered level; the dialog shows the target with that level |
| `Simulation.CarePlant` | src/components/Garden.tsx:128-143 | the same as watering, for happiness |
| `Simulation.WateredMemoryLagsStore` | src/components/Garden.tsx:111-125 | the stored row gets `last_watered = now` while the dialog's plant keeps its old watering time; caring shows exactly what it stores |
| `Simulation.WaterPlantWrite` | src/components/Garden.tsx:111-117 | the update targets the plant's id and, applied to it, sets the watered level and `last_watered = now` and nothing else |
| `Simulation.CarePlantWrite` | src/components/Garden.tsx:131-134 | the update targets the plant's id and, applied to it, sets the cared happiness and nothing else |
| `Simulation.WaterFromEighty` | src/components/Garden.tsx:109-116 | watering a plant at 80 writes level 100, not 110, with the current time |
| `Simulation.WithoutId` | src/components/Garden.tsx:153 | a plant is kept exactly when it was listed and has a different id |
| `Simulation.WithoutIdSplits` | src/components/Garden.tsx:153 | removal splits over concatenation, so kept plants keep their relative order |
| `Simulation.WithoutIdDropsCount` | src/components/Garden.tsx:153 | the list shrinks by exactly the number of plants with the id |
| `Simulation.WithoutIdKeepsCleanList` | src/components/Garden.tsx:153 | a list with no plant of the id is returned unchanged |
| `Simulation.RemovePlant` | src/components/Garden.tsx:145-155 | on an error nothing changes; otherwise no plant with the id remains, every other plant is kept, the list shrinks by the number removed, and the dialog closes |
| `Simulation.RemoveIsIdempotent` | src/components/Garden.tsx:153 | removing the same plant twice is removing it once |
| `Visual.DisplayStage` | src/components/PlantVisual.tsx:9 | the drawn stage is the growth stage, with anything above 5 drawn as 5 |
| `Visual.IsHealthy` | src/components/PlantVisual.tsx:11 | definition, no contract: water and happiness both above 30 |
| `Visual.KindGlyph` | src/components/PlantVisual.tsx:18-49 | a kind's own glyph is never the wilted one; stage 0 is the seedling and stage 1 the sprout for every kind |
| `Visual.ShowsWaterDrop` | src/components/PlantVisual.tsx:57-59 | definition, no contract: water below 30 |
| `Visual.ShowsSparkle` | src/components/PlantVisual.tsx:81 | definition, no contract: happiness above 80, healthy, drawn stage at least 3 |
| `Visual.PlantGlyph` | src/components/PlantVisual.tsx:13-50 | the glyph is wilted exactly when the plant is unhealthy and the drawn stage is above 0; stage 0 is a seedling |
| `Visual.Size` | src/components/PlantVisual.tsx:52-55 | for a non-negative stage the size lies in 2..4.5 rem; it is 4.5 from stage 5 on and below 2 for a negative stage |
| `Visual.Render` | src/components/PlantVisual.tsx:62-88 | an unhealthy plant is faded; a water drop implies unhealthy; a sparkle implies healthy and a glyph that is neither wilted, seedling nor sprout |
| `Visual.RenderReadsFourFields` | src/components/PlantVisual.tsx:8-11 | two plants that agree on kind, stage, water and happiness are drawn identically |
| `Visual.RenderSaturatesAtFinalStage` | src/components/PlantVisual.tsx:9 | every stage of 5 or more is drawn exactly as stage 5 |
| `Visual.DryPlantWilts` | src/components/PlantVisual.tsx:11-16 | water 20, happiness 90, stage 2 is unhealthy and wilted for every kind |
| `Visual.CactusExactly` | src/components/PlantVisual.tsx:33-39 | the cactus appears exactly for a healthy succulent at stage 3 or more, or a succulent at a negative stage |
| `Visual.MushroomCapExactly` | src/components/PlantVisual.tsx:40-46 | the mushroom cap appears exactly for a healthy mushroom at stage 2 or more, or a mushroom at a negative stage |
| `Visual.FlowerAndTreeStagesDistinct` | src/components/PlantVisual.tsx:19-32 | a flower's six stages have six different glyphs, and so do a tree's |
| `Visual.NegativeStageShowsFinalGlyph` | src/components/PlantVisual.tsx:9-46 | a negative stage is never wilted, shows the kind's stage-5 glyph, and is drawn below the base size |
| `Visual.SizeMonotone` | src/components/PlantVisual.tsx:52-54 | size never decreases as the growth stage rises |
| `Visual.UnhealthyWithoutDrop` | src/components/PlantVisual.tsx:57-59 | a plant is unhealthy without a water drop exactly when water is 30, or water is above 30 and happiness at most 30 |
| `Modal.PlantName` | src/components/PlantModal.tsx:13-21 | every kind has a non-empty, capitalised name |
| `Modal.PlantNamesDistinct` | src/components/PlantModal.tsx:14-19 | the four kinds have four different names |
| `Modal.StageLabel` | src/components/PlantModal.tsx:23-26 | a label exists exactly for a non-negative stage and is one of the six; stage 0 is "Seed" and every stage of 5 or more is "Blooming" |
| `Modal.WaterEnabled` | src/components/PlantModal.tsx:81 | definition, no contract: enabled unless water is at least 100 |
| `Modal.CareEnabled` | src/components/PlantModal.tsx:89 | definition, no contract: enabled unless happiness is at least 100 |
| `Modal.StageLabelsDistinct` | src/components/PlantModal.tsx:24 | stages 0 to 5 have six different labels |
| `Consistency.WaterButtonMatchesEffect` | src/components/PlantModal.tsx:81 | on the 0..100 scale, Water is enabled exactly when watering would change the level, and then it raises it |
| `Consistency.CareButtonMatchesEffect` | src/components/PlantModal.tsx:89 | on the 0..100 scale, Care is enabled exactly when caring would change happiness, and then it raises it |
| `Consistency.WateredSelectionDisablesButtonAtCeiling` | src/components/Garden.tsx:124-125 | after watering, the dialog's Water button is disabled exactly when the target started at 70 or more |
| `Consistency.NewPlantShowsHealthySeed` | src/components/Garden.tsx:85-93 | a new plant is drawn healthy, unfaded, as a seedling of size 2 with no drop or sparkle, labelled "Seed", with both buttons disabled |
| `Consistency.TickKeepsStageLabelled` | src/components/Garden.tsx:50-54 | a tick at or after planting keeps a non-negative stage non-negative, so the dialog can label it |
| `Consistency.TickBeforeCreationGoesNegative` | src/components/Garden.tsx:50-54 | a fresh plant ticked 1 ms before its creation time gets stage -1, is drawn with its kind's final glyph and has no stage label; with the gate closed, the same early tick keeps the stage |
| `Consistency.FinalStageSurvivesTick` | src/components/Garden.tsx:51 | a plant at stage 5 or more keeps its stage through a tick, and with it its size and the "Blooming" label |

## Left out

- Store I/O: the `select`, `insert`, `update` and `delete` calls and their logging. The delete sends no fields, so `RemovePlant` models only its error branch and the list update. Each action's error branch is the `stored` flag; the tick's update batch is the list of writes `PersistTick` returns. The per-row failures of that batch are not modelled.
- Loading the plant list: `loadPlants` only copies the store's answer into state.
- The one-minute interval timer and the React state hooks. The interval keeps the tick function of the first render, whose plant list is the initial empty one. So every tick maps over the empty list and sets the plant list to empty: the garden view empties one minute after loading. `Tick` takes the list as a parameter and models the tick applied to the list it is given.
- The plant-menu toggle and the remaining dialog and garden markup, apart from the button-enable conditions and the faded style.
- `src/App.tsx`: session handling and find-or-create of the user's garden. It is asynchronous I/O against the authentication service with no pure logic. `Schema.Garden` keeps only the record shape.
- `src/components/AuthModal.tsx`: form state and sign-in error display.
- `src/lib/supabase.ts` client construction from environment variables.
- Parsing of ISO date strings: timestamps are milliseconds. An unparseable date (NaN in the program) is not modelled.
- IEEE-754 rounding: numbers are exact reals, so results that differ from the exact ones only by floating-point error are not modelled.
- `Math.random` itself: the model takes its result as a parameter.
- Glyph rendering: glyphs are the `Visual.Glyph` enumeration. The `default` branch of the kind switch cannot be reached with a four-valued kind.
