/** The placement validator: may a card go into a slot, or anywhere, without
    making a total negative? */
module PlacementValidator {
  import opened CardCatalog
  import opened BalanceCalculator

  /** The two rows a card can be aimed at. */
  datatype SlotKind = GeneratorSlot | ConsumerSlot

  /** Both rows have GRID_SIZE slots, as the state always does. */
  predicate WellFormed(g: Grid)
  {
    |g.generators| == GRID_SIZE && |g.consumers| == GRID_SIZE
  }

  /** The slot holds a card called `name`. */
  predicate SameName(s: Slot, name: string)
  {
    s.Occupied? && s.card.def.name == name
  }

  /** The slot holds the card whose name the incentive's name maps to. */
  predicate MatchesTarget(s: Slot, card: Card)
  {
    s.Occupied? && MatchingConsumer(card.def.name) == Some(s.card.def.name)
  }

  /** The card as written into a generator slot: a Big Generator enters face-down. */
  function AsPlacedGenerator(card: Card): Card
  {
    if card.def.kind == BigGenerator then card.(faceDown := true) else card
  }

  /** The hypothetical grid: the card written into the slot of a copy of the grid. */
  function Apply(g: Grid, card: Card, slot: SlotKind, index: nat): (r: Grid)
    requires WellFormed(g) && index < GRID_SIZE
    ensures WellFormed(r) && Before(r, slot, index) == After(card, slot)
    ensures forall i :: 0 <= i < GRID_SIZE && i != index ==>
              r.generators[i] == g.generators[i] && r.consumers[i] == g.consumers[i]
    ensures slot == GeneratorSlot ==> r.consumers == g.consumers
    ensures slot == ConsumerSlot ==> r.generators == g.generators
  {
    match slot
    case GeneratorSlot => g.(generators := g.generators[index := After(card, slot)])
    case ConsumerSlot => g.(consumers := g.consumers[index := After(card, slot)])
  }

  /** The rules checked before the balance: the index is in range, a generator slot does
      not already hold a card of the same name, and an incentive goes only onto a slot
      holding its mapped consumer and not onto an incentive of its own name. */
  predicate RulesAllow(g: Grid, card: Card, slot: SlotKind, index: int)
    requires WellFormed(g)
  {
    && 0 <= index < GRID_SIZE
    && (slot == GeneratorSlot ==> !SameName(g.generators[index], card.def.name))
    && (slot == ConsumerSlot && card.def.kind == Incentive ==>
          !SameName(g.consumers[index], card.def.name) && MatchesTarget(g.consumers[index], card))
  }

  /** May `card` go into slot `index` of the given row? The live grid is only read. */
  function CanPlace(g: Grid, card: Card, slot: SlotKind, index: int): (ok: bool)
    requires WellFormed(g)
    ensures ok ==> RulesAllow(g, card, slot, index)
    ensures ok ==> Stable(CalculateTotals(Apply(g, card, slot, index)))
  {
    if index < 0 || index >= GRID_SIZE then false
    else if slot == GeneratorSlot && SameName(g.generators[index], card.def.name) then false
    else if slot == ConsumerSlot && card.def.kind == Incentive && SameName(g.consumers[index], card.def.name) then false
    else if slot == ConsumerSlot && card.def.kind == Incentive && !MatchesTarget(g.consumers[index], card) then false
    else Stable(CalculateTotals(Apply(g, card, slot, index)))
  }

  /** When the rules allow the placement, it is accepted exactly when the hypothetical
      grid is stable. */
  lemma CanPlaceWhenRulesAllow(g: Grid, card: Card, slot: SlotKind, index: int)
    requires WellFormed(g) && RulesAllow(g, card, slot, index)
    ensures CanPlace(g, card, slot, index) <==> Stable(CalculateTotals(Apply(g, card, slot, index)))
  {
  }

  /** The slot a placement rewrites, before and after. */
  function Before(g: Grid, slot: SlotKind, index: nat): Slot
    requires WellFormed(g) && index < GRID_SIZE
  {
    match slot
    case GeneratorSlot => g.generators[index]
    case ConsumerSlot => g.consumers[index]
  }

  function After(card: Card, slot: SlotKind): Slot
  {
    match slot
    case GeneratorSlot => Occupied(AsPlacedGenerator(card))
    case ConsumerSlot => Occupied(card)
  }

  /** The current totals moved by the contribution the slot gains less the one it loses. */
  function Shifted(g: Grid, before: Slot, after: Slot): Totals
  {
    Totals(
      GridSum(g, Night) - Contribution(before, Night) + Contribution(after, Night),
      GridSum(g, Day) - Contribution(before, Day) + Contribution(after, Day),
      GridSum(g, Eve) - Contribution(before, Eve) + Contribution(after, Eve),
      GridSum(g, Flex) - Contribution(before, Flex) + Contribution(after, Flex))
  }

  /** The hypothetical grid's totals are the current ones shifted by the rewritten slot. */
  lemma ApplyShiftsTotals(g: Grid, card: Card, slot: SlotKind, index: nat)
    requires WellFormed(g) && index < GRID_SIZE
    ensures CalculateTotals(Apply(g, card, slot, index))
         == Shifted(g, Before(g, slot, index), After(card, slot))
  {
    var row := if slot == GeneratorSlot then g.generators else g.consumers;
    RowSumUpdate(row, index, After(card, slot), Night);
    RowSumUpdate(row, index, After(card, slot), Day);
    RowSumUpdate(row, index, After(card, slot), Eve);
    RowSumUpdate(row, index, After(card, slot), Flex);
  }

  /** When the rules allow the placement, it is accepted exactly when the current totals,
      less what the slot's occupant adds and plus what the placed card adds, stay
      non-negative: a Big Generator, entering face-down, adds nothing. */
  lemma CanPlaceByDelta(g: Grid, card: Card, slot: SlotKind, index: int)
    requires WellFormed(g) && RulesAllow(g, card, slot, index)
    ensures CanPlace(g, card, slot, index) <==> Stable(Shifted(g, Before(g, slot, index), After(card, slot)))
  {
    ApplyShiftsTotals(g, card, slot, index);
  }

  /** A Big Generator goes into an empty generator slot exactly when the grid is stable now. */
  lemma BigGeneratorIntoEmptySlot(g: Grid, card: Card, index: nat)
    requires WellFormed(g) && index < GRID_SIZE && g.generators[index].Empty?
    requires card.def.kind == BigGenerator
    ensures CanPlace(g, card, GeneratorSlot, index) <==> Stable(CalculateTotals(g))
  {
    CanPlaceByDelta(g, card, GeneratorSlot, index);
  }

  /** With all four totals at zero, a Solar generator cannot go into an empty slot: its
      flex of -1 would make the flex total negative. */
  lemma SolarRejectedAtZeroBalance(g: Grid, index: nat)
    requires WellFormed(g) && index < GRID_SIZE && g.generators[index].Empty?
    requires CalculateTotals(g) == Totals(0, 0, 0, 0)
    ensures !CanPlace(g, Card(CATALOG[0], ShopId(0), false), GeneratorSlot, index)
  {
    var solar := Card(CATALOG[0], ShopId(0), false);
    CanPlaceByDelta(g, solar, GeneratorSlot, index);
    assert Shifted(g, Empty, Occupied(solar)).flex == -1;
  }

  /** What a successful placement writes. The source's commit writes only a generator
      slot, or a consumer slot for an incentive: a non-incentive aimed at a consumer slot
      passes the check on a hypothetical grid but leaves the grid as it was. */
  function Committed(g: Grid, card: Card, slot: SlotKind, index: nat): (r: Grid)
    requires WellFormed(g) && index < GRID_SIZE
    ensures WellFormed(r)
    ensures slot == GeneratorSlot || card.def.kind == Incentive ==> Before(r, slot, index) == After(card, slot)
    ensures slot == ConsumerSlot && card.def.kind != Incentive ==> r == g
    ensures forall i :: 0 <= i < GRID_SIZE && r.generators[i] != g.generators[i] ==>
              i == index && slot == GeneratorSlot && r.generators[i] == Occupied(AsPlacedGenerator(card))
    ensures forall i :: 0 <= i < GRID_SIZE && r.consumers[i] != g.consumers[i] ==>
              i == index && slot == ConsumerSlot && card.def.kind == Incentive && r.consumers[i] == Occupied(card)
  {
    if slot == ConsumerSlot && card.def.kind != Incentive then g
    else Apply(g, card, slot, index)
  }

  /** Whenever the commit writes the card, the grid it leaves is stable. */
  lemma AcceptedPlacementIsStable(g: Grid, card: Card, slot: SlotKind, index: nat)
    requires WellFormed(g) && index < GRID_SIZE && CanPlace(g, card, slot, index)
    requires slot == GeneratorSlot || card.def.kind == Incentive
    ensures WellFormed(Committed(g, card, slot, index))
    ensures Stable(CalculateTotals(Committed(g, card, slot, index)))
  {
  }

  /** Is some generator slot holding no card of this name open to the card? */
  function AnyGeneratorSlot(g: Grid, card: Card, from: nat): (ok: bool)
    requires WellFormed(g) && from <= GRID_SIZE
    ensures ok <==> exists i :: from <= i < GRID_SIZE && !SameName(g.generators[i], card.def.name)
                                && CanPlace(g, card, GeneratorSlot, i)
    decreases GRID_SIZE - from
  {
    if from == GRID_SIZE then false
    else if !SameName(g.generators[from], card.def.name) && CanPlace(g, card, GeneratorSlot, from) then true
    else AnyGeneratorSlot(g, card, from + 1)
  }

  /** Is some consumer slot holding the incentive's mapped consumer open to the card? */
  function AnyConsumerSlot(g: Grid, card: Card, from: nat): (ok: bool)
    requires WellFormed(g) && from <= GRID_SIZE
    ensures ok <==> exists i :: from <= i < GRID_SIZE && MatchesTarget(g.consumers[i], card)
                                && CanPlace(g, card, ConsumerSlot, i)
    decreases GRID_SIZE - from
  {
    if from == GRID_SIZE then false
    else if MatchesTarget(g.consumers[from], card) && CanPlace(g, card, ConsumerSlot, from) then true
    else AnyConsumerSlot(g, card, from + 1)
  }

  /** A slot open to the card is enough for "placeable anywhere". */
  lemma SlotOpenMeansAnywhere(g: Grid, card: Card, slot: SlotKind, index: int)
    requires WellFormed(g) && CanPlace(g, card, slot, index)
    requires card.def.kind != Consumer
    requires slot == (if card.def.kind == Incentive then ConsumerSlot else GeneratorSlot)
    ensures CanPlaceAnywhere(g, card)
  {
  }

  /** Can the card be placed somewhere? Generators look at every generator slot, incentives
      at the slots holding their mapped consumer; a consumer never can. */
  function CanPlaceAnywhere(g: Grid, card: Card): (ok: bool)
    requires WellFormed(g)
    ensures card.def.kind == Consumer ==> !ok
    ensures card.def.kind in {Generator, BigGenerator} ==>
              (ok <==> exists i :: 0 <= i < GRID_SIZE && CanPlace(g, card, GeneratorSlot, i))
    ensures card.def.kind == Incentive ==>
              (ok <==> exists i :: 0 <= i < GRID_SIZE && CanPlace(g, card, ConsumerSlot, i))
    ensures ok ==> exists slot, i :: CanPlace(g, card, slot, i)
  {
    match card.def.kind
    case Generator => AnyGeneratorSlot(g, card, 0)
    case BigGenerator => AnyGeneratorSlot(g, card, 0)
    case Incentive => AnyConsumerSlot(g, card, 0)
    case Consumer => false
  }
}
