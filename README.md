# Power-Flex rules engine in Dafny

Power-Flex is a single-player grid puzzle: eight generator slots, eight consumer slots and a shop.
Every card carries four stats (night, day, evening, flex). A grid is *stable* when each of the four
totals over the face-up cards is at least zero. The player places generators and plays incentives
onto consumers until no Fossil generator is left. A play is accepted only if the grid it would
produce is stable. After each accepted play that does not win, the turn advances: the lowest
face-down consumer is revealed, and every face-down Big Generator turns face-up.

This project models the game-rules engine of `script.js` and proves properties of it:

- `catalog.dfy` (`CardCatalog`): the 22 card entries, their order, the grid constants, the
  incentive-to-consumer map and its lookup.
- `balance.dfy` (`BalanceCalculator`): the four totals of a grid. Only occupied, face-up slots
  count. The totals are computed one stat at a time by recursion over a row.
- `placement.dfy` (`PlacementValidator`): `canPlaceCard` as a pure function `CanPlace`. It
  applies the same rule checks and then tests stability on the hypothetical grid `Apply`, where
  a Big Generator enters face-down. `canCardBePlacedAnywhere` is modelled as `CanPlaceAnywhere`.
- `shop.dfy` (`ShopComposer`): the shop rebuilt from the catalog and the consumer row
  (`ComposedShop`), and the shop filter by id.
- `game.dfy` (`GameEngine`): the state as a class `Game`. It has two arrays of `GRID_SIZE` slots
  written in place, the `shop` sequence, the `turn` counter and the `gameWon` flag. Its methods
  are `initGame`, `updateShopInventory`, `placeCard`, `playIncentiveImmediately`, `nextTurn` and
  `checkWinCondition`. Each method is proved against the pure functions beside it:
  `InitialGenerators`, `InitialConsumers`, `ComposedShop`, `Committed`, `LowestMatch`,
  `RevealFirst` and `FaceUpAll`.

Card instances are values: `Card(def, id, faceDown)`. The ids `fossil-i`, `consumer-i` and
`shop-k` of the source are the constructors `FossilId(i)`, `ConsumerId(i)` and `ShopId(k)`. A
missing `faceDown` field reads as `false`.

Some facts about the code that the model keeps as they are:

- **The code keeps no global balance rule.** Only placements are checked. A new game can start
  unstable (`InitialGridCanBeUnstable`: evening total -1), and the turn advance after an
  accepted placement can unbalance a stable grid (`RevealCanUnbalance`: evening total -2). So the model proves that every accepted
  placement leaves a stable grid, not that every reachable state is stable.
- **`placeCard` and `playIncentiveImmediately` do not look at `gameWon`.** A placement or an
  incentive play after the win is still checked and committed, and the flag stays set.
- **A non-incentive aimed at a consumer slot.** `canPlaceCard` accepts it when the hypothetical
  grid is stable, but `placeCard` writes nothing. It still rebuilds the shop and advances the
  turn. `Committed` models this, and `PlaceCard` ensures the grid is `Committed(...)`.
- **Face-down consumers can be targeted.** An incentive is offered while its consumer is still
  face-down, and an incentive can be played onto a face-down consumer. The card written there
  counts at once.

## Model

| member | source | states |
|---|---|---|
| CardCatalog.FossilIsFound | script.js:131-136 | The starting generators' entry, looked up by the name "Fossil", is catalog entry 3, and no earlier entry has that name. |
| CardCatalog.ConsumerEntries | script.js:139 | Filtering the catalog by category Consumer keeps exactly the entries at indices 6 to 13, the dealt entries. |
| CardCatalog.ConsumerDefsListed | script.js:41-48 | The dealt entries are AC, Industry, EVs, Appliances, Lights, Heating, Infrastructure and Data Centre, in that order. |
| CardCatalog.MatchingConsumer | script.js:72-74 | A name the lookup finds maps to the name of one of the dealt consumers, never to itself. |
| CardCatalog.MapEntriesAreCatalogued | script.js:60-74 | Every name the lookup maps is a catalog incentive, and it maps to the name of a catalog consumer. |
| CardCatalog.CatalogIncentivesAreMapped | script.js:60-74 | Every catalog incentive has a mapped consumer, so the lookup never gives null for an incentive of the catalog. |
| CardCatalog.IncentiveMapIsInjective | script.js:60-69 | No two incentives map to the same consumer, and no incentive maps to its own name. |
| BalanceCalculator.CalculateTotals | script.js:438-462 | Empty slots and face-down cards add nothing, so a grid without a face-up card totals (0, 0, 0, 0). |
| BalanceCalculator.RowSumUpdate | script.js:438-462 | Rewriting one slot moves a row's total by the new occupant's contribution minus the old one's. |
| BalanceCalculator.HiddenRowSumsToZero | script.js:442-459 | A row with no face-up card sums to zero. |
| BalanceCalculator.FaceDownAddsNothing | script.js:442-459 | A face-down card adds nothing to its row's total, whatever its stats. |
| BalanceCalculator.FaceDownExcluded | script.js:438-462 | A grid with a face-down card in a slot has the same four totals as the grid with that slot empty. |
| PlacementValidator.Apply | script.js:405-428 | The hypothetical grid holds the card in the chosen slot, a Big Generator face-down. Every other slot of both rows is as it was. |
| PlacementValidator.CanPlace | script.js:387-435 | An accepted placement has its index in range. A generator slot must not hold a card of the same name. An incentive needs a consumer slot holding its mapped consumer and not itself. The hypothetical grid, with a Big Generator face-down, is stable. |
| PlacementValidator.CanPlaceWhenRulesAllow | script.js:405-434 | Once the rule checks pass, the placement is accepted exactly when the hypothetical grid is stable. |
| PlacementValidator.ApplyShiftsTotals | script.js:405-434 | The hypothetical grid's totals are the current ones, minus the rewritten slot's old contribution, plus the new card's. So an incentive replaces its consumer's stats and does not add to them. |
| PlacementValidator.CanPlaceByDelta | script.js:387-435 | When the rules allow the placement, it is accepted exactly when the shifted totals stay non-negative. |
| PlacementValidator.BigGeneratorIntoEmptySlot | script.js:407-414 | A Big Generator may go into an empty generator slot exactly when the grid is stable now, because it enters face-down. |
| PlacementValidator.SolarRejectedAtZeroBalance | script.js:387-435 | On a grid whose totals are all zero, a Solar generator is refused for any empty slot, because its flex is -1. |
| PlacementValidator.Committed | script.js:706-722 | The commit changes at most the target slot. A generator slot gets the card, a Big Generator face-down. A consumer slot changes only for an incentive, which replaces the card there. No other card is ever written into the consumer row. |
| PlacementValidator.AcceptedPlacementIsStable | script.js:706-722 | Whenever the commit writes the accepted card, the grid it leaves is stable. |
| PlacementValidator.AnyGeneratorSlot | script.js:83-90 | True exactly when some generator slot at or after `from` holds no card of the same name and accepts the card. |
| PlacementValidator.AnyConsumerSlot | script.js:91-99 | True exactly when some consumer slot at or after `from` holds the mapped consumer and accepts the incentive. |
| PlacementValidator.CanPlaceAnywhere | script.js:81-102 | A Generator or Big Generator gets true exactly when some generator slot accepts it. An incentive gets true exactly when some consumer slot accepts it. A consumer always gets false. |
| PlacementValidator.SlotOpenMeansAnywhere | script.js:81-102 | A single accepting slot of the right row is enough for "placeable anywhere". |
| ShopComposer.PresentConsumers | script.js:165-170 | A name is collected exactly when some slot holds a card of category Consumer with that name, face-down or not. |
| ShopComposer.ShopUpTo | script.js:173-193 | The shop built from the first n entries holds exactly the offered entries among them, with ids `shop-<index>`, in increasing index order. |
| ShopComposer.ComposedShop | script.js:163-194 | The rebuilt shop holds exactly the catalog entries on offer for the consumer names in the row, once each, in catalog order, with ids `shop-<index>`. |
| ShopComposer.ShopContents | script.js:163-194 | The shop holds every Generator and Big Generator and no Consumer. It holds an incentive exactly when its mapped consumer is in some slot. Its cards are in catalog order. |
| ShopComposer.ShopIgnoresFaceDown | script.js:167 | Turning a consumer face-up or face-down does not change the shop. |
| ShopComposer.WithoutId | script.js:666 | The filtered shop holds exactly the cards whose id differs from the played card's. |
| GameEngine.CoveringLastFossilWins | script.js:939-945 | Covering the last Fossil with a card of another name leaves no Fossil, so the win check then sets the flag. |
| GameEngine.InitialGenerators | script.js:131-136 | The starting generator row has a face-up Fossil, with id `fossil-i`, in each of the first four slots and nothing after them, so a new game is not won. |
| GameEngine.InitialConsumers | script.js:142-151 | The starting consumer row holds the dealt entries in order, with ids `consumer-i`. Exactly the slots from 4 on that hold a card are face-down. |
| GameEngine.FirstFaceDownFrom | script.js:967 | The result is the lowest face-down slot at or after `from`, or none when there is no such slot. |
| GameEngine.RevealFirst | script.js:967-970 | Revealing changes at most one slot, the lowest face-down one, and turns that card face-up. |
| GameEngine.CountAfterTurningUp | script.js:969-970 | Turning one face-down card face-up lowers the row's face-down count by one. |
| GameEngine.CountZeroIffNoneFaceDown | script.js:967-969 | The face-down count is zero exactly when no slot is face-down, that is when the search finds nothing. |
| GameEngine.RevealFirstSpec | script.js:967-974 | Revealing turns only the lowest face-down card face-up and keeps its entry and id. It lowers the face-down count by one, and a row with nothing face-down is kept as is. |
| GameEngine.RevealKeepsShop | script.js:970-973 | Rebuilding the shop after a reveal gives the shop there was before it. |
| GameEngine.FaceUpAll | script.js:976-981 | No generator is face-down afterwards, and the only slots that change are face-down cards turned face-up. |
| GameEngine.FaceUpAllSpec | script.js:976-981 | Flipping the generators leaves none face-down and changes no card's entry or id. It keeps the slots that were face-up, and keeps whether a Fossil is present. |
| GameEngine.LowestMatchFrom | script.js:641-649 | The result is the lowest slot at or after `from` holding the incentive's mapped consumer, or none when there is no such slot. |
| GameEngine.DealtConsumerPresent | script.js:139-151 | Whatever the deal order, every consumer entry sits in some consumer slot. |
| GameEngine.InitialShopOffersAll | script.js:139-154 | After any deal of the consumers, the starting shop offers every card that is not a consumer, all eight incentives included. |
| GameEngine.InitialFaceDownCount | script.js:141-148 | A new game has four face-down consumers. |
| GameEngine.InitialTotals | script.js:131-148 | A new game's totals are four Fossils' stats plus the stats of the first four dealt consumers. |
| GameEngine.InitialGridCanBeUnstable | script.js:139-148 | Some deal starts the game with an evening total of -1. |
| GameEngine.CatalogOrderDealTotals | script.js:131-151 | The game dealt in catalog order starts with totals (7, 2, 1, 2). |
| GameEngine.SolarOverFossil | script.js:405-434 | Solar from the shop over a face-up Fossil moves the totals by (-1, 2, -1, -2). |
| GameEngine.AdvanceAddsRevealedStats | script.js:961-981 | When no generator is face-down, the turn advance moves the totals by exactly the stats of the consumer it reveals. |
| GameEngine.RevealCanUnbalance | script.js:696-748 | In the game dealt in catalog order, Solar from the shop is accepted over the Fossil in slot 0 and leaves a stable grid with three Fossils. The turn advance then reveals Lights and the evening total becomes -2. |
| GameEngine.Game.constructor | script.js:105-113 | Before the first game, both rows are empty, the shop is empty, the turn is 1 and the game is not won. |
| GameEngine.Game.InitGame | script.js:118-160 | A new game has fresh rows holding the four Fossils and the dealt consumers, the first four face-up. The shop is the composed one, the turn is 1 and the game is not won. |
| GameEngine.Game.DealFossils | script.js:131-136 | The dealt generator row is a Fossil in each of the first four slots and empty slots after them. |
| GameEngine.Game.DealConsumers | script.js:139-151 | The dealt consumer row holds the entries in the shuffled order, with ids by slot, face-down from slot 4 on. |
| GameEngine.Game.UpdateShopInventory | script.js:163-194 | The shop becomes the one composed from the consumer row. |
| GameEngine.Game.CollectConsumerNames | script.js:165-170 | The collected set is the names of the row's Consumer cards. |
| GameEngine.Game.BuildShop | script.js:173-193 | The built shop is the composition over the whole catalog. |
| GameEngine.Game.CheckWinCondition | script.js:939-945 | The flag is set when no generator is named "Fossil" and is never cleared. |
| GameEngine.Game.FinishPlay | script.js:666-684 | After a play, the shop is the composed one and the win flag is checked. |
| GameEngine.Game.PlaceCard | script.js:696-748 | A placement is done exactly when `CanPlace` accepts it. A refused one changes nothing. An accepted one writes the `Committed` grid: only the target slot changes, and a Big Generator goes in face-down. The shop ends recomposed, the win flag is checked, and the grid is stable whenever the card was written. |
| GameEngine.Game.PlayIncentive | script.js:629-693 | The incentive is played exactly when it is an incentive, some consumer slot holds its mapped consumer, and the lowest such slot accepts it. Then only that slot is overwritten by the incentive, the grid is stable, the shop ends recomposed and the win flag is checked. Otherwise nothing changes. |
| GameEngine.Game.IncentiveTarget | script.js:630-660 | The checks give a slot exactly when the card is an incentive, some slot holds its mapped consumer, and the lowest such slot accepts it. That slot is the one they give. |
| GameEngine.Game.NextTurn | script.js:961-986 | Once the game is won, nothing changes. Otherwise the turn goes up by one and only the lowest face-down consumer is revealed. Every generator is turned face-up, the shop is recomposed if a consumer was revealed, and the win flag is checked. |
| GameEngine.Game.FindTarget | script.js:641-649 | The search returns the lowest slot holding the mapped consumer, or none. |
| GameEngine.Game.FindFaceDown | script.js:967 | The search returns the lowest face-down slot, or none. |
| GameEngine.Game.TurnGeneratorsUp | script.js:976-981 | Every face-down generator is turned face-up in place, and nothing else changes. |
| GameEngine.Game.PlaceCardAndAdvance | script.js:696-748 | The placement is done exactly when `CanPlace` accepts it, and a refused one changes nothing. An accepted one sets the win flag when the committed grid has no Fossil. If it wins, the grid is the committed one and the turn stays. Otherwise the turn goes up by one, the lowest face-down consumer is revealed and every generator is face-up. The shop ends composed from the final consumer row. |
| GameEngine.Game.PlayIncentiveAndAdvance | script.js:629-693 | The incentive is played exactly when `PlayIncentive` would play it, and a refused one changes nothing. A played one overwrites the lowest matching slot and sets the win flag when no Fossil is left. If it wins, nothing else changes. Otherwise the turn goes up by one, the lowest face-down consumer is revealed and every generator is face-up. The shop ends composed from the final consumer row. |

## Left out

- The DOM: card elements, grid and shop rendering, totals display, modals and the page
  wiring. Only the state they display is modelled.
- Selection and hover: `selectedCard`, drop-zone highlighting and projections. `PlaceCard` takes
  the selected card as a parameter, and the early return when nothing is selected is not
  modelled.
- The one-second `setTimeout` before the automatic advance. `PlaceCardAndAdvance` and
  `PlayIncentiveAndAdvance` call `NextTurn` at once. Events that could arrive during the delay
  are not modelled.
- The `Math.random` shuffle of `initGame`. The deal order is the parameter `shuffled`, and the
  only requirement is that it is a permutation of the catalog's consumer entries.
- The `try`/`catch`, the console logging, the status messages and the `usedConsumers` set,
  which is written but never read.
- Object identity. Cards are values, so the sharing of a card object between the shop and the
  grid is not modelled. It has no visible effect: the shop is rebuilt with new objects after
  every play, and a Big Generator is written as a copy.
- The `!card` null test of `canPlaceCard`. A `Card` value is always present.
- Name lookups of the incentive map that hit inherited object properties (such as `toString`).
  `MatchingConsumer` looks only at the eight listed names.
- GameEngine.Game.IncentiveTarget: the source tests "placeable anywhere" before searching for the
  target slot. The model searches first. Each rejection leaves the state as it was, so only the
  status message would differ.
- GameEngine.Game.PlaceCard: the second target check inside the incentive branch of `placeCard`
  always passes after `canPlaceCard`, so it is not modelled.
