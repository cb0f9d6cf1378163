/** The game state machine: the grid, the shop, the turn counter and the win flag, changed
    only by starting a game, placing a card, playing an incentive and advancing the turn. */
module GameEngine {
  import opened CardCatalog
  import opened BalanceCalculator
  import opened PlacementValidator
  import opened ShopComposer

  /** Some generator slot holds a card named "Fossil": the game is not yet won. */
  predicate HasFossil(generators: seq<Slot>)
  {
    exists i :: 0 <= i < |generators| && SameName(generators[i], "Fossil")
  }

  /** Covering the only Fossil left with a card of another name leaves none: that play wins. */
  lemma CoveringLastFossilWins(generators: seq<Slot>, i: nat, c: Card)
    requires i < |generators| && SameName(generators[i], "Fossil") && c.def.name != "Fossil"
    requires forall j :: 0 <= j < |generators| && j != i ==> !SameName(generators[j], "Fossil")
    ensures HasFossil(generators) && !HasFossil(generators[i := Occupied(c)])
  {
  }

  /** The generator row of a new game: a Fossil in each of the first
      INITIAL_FOSSIL_COUNT slots, the rest empty. */
  function InitialGenerators(): (r: seq<Slot>)
    ensures |r| == GRID_SIZE && HasFossil(r)
    ensures forall j :: 0 <= j < GRID_SIZE ==>
              !IsFaceDown(r[j]) && (r[j].Occupied? <==> j < INITIAL_FOSSIL_COUNT)
              && (r[j].Occupied? ==> r[j].card.def == FOSSIL && r[j].card.id == FossilId(j))
  {
    var r := seq(GRID_SIZE, i requires 0 <= i < GRID_SIZE =>
      if i < INITIAL_FOSSIL_COUNT then Occupied(Card(FOSSIL, FossilId(i), false)) else Empty);
    assert SameName(r[0], "Fossil");
    r
  }

  /** The consumer row of a new game dealt in the order `shuffled`: the first
      INITIAL_REVEALED_CONSUMERS face-up, the rest face-down. */
  function InitialConsumers(shuffled: seq<CardDef>): (r: seq<Slot>)
    ensures |r| == GRID_SIZE
    ensures forall j :: 0 <= j < GRID_SIZE ==>
              (r[j].Occupied? <==> j < |shuffled|)
              && (IsFaceDown(r[j]) <==> INITIAL_REVEALED_CONSUMERS <= j < |shuffled|)
              && (r[j].Occupied? ==> r[j].card.def == shuffled[j] && r[j].card.id == ConsumerId(j))
  {
    seq(GRID_SIZE, i requires 0 <= i < GRID_SIZE =>
      if i < |shuffled| then Occupied(Card(shuffled[i], ConsumerId(i), i >= INITIAL_REVEALED_CONSUMERS))
      else Empty)
  }

  /** The slot holds a face-down card. */
  predicate IsFaceDown(s: Slot)
  {
    s.Occupied? && s.card.faceDown
  }

  /** The lowest index from `from` on whose slot is face-down, if any. */
  function FirstFaceDownFrom(s: seq<Slot>, from: nat): (r: Option<nat>)
    requires from <= |s|
    ensures r.Some? ==> from <= r.value < |s| && IsFaceDown(s[r.value])
                        && forall j :: from <= j < r.value ==> !IsFaceDown(s[j])
    ensures r.None? ==> forall j :: from <= j < |s| ==> !IsFaceDown(s[j])
    decreases |s| - from
  {
    if from == |s| then None
    else if IsFaceDown(s[from]) then Some(from)
    else FirstFaceDownFrom(s, from + 1)
  }

  function FirstFaceDown(s: seq<Slot>): Option<nat>
  {
    FirstFaceDownFrom(s, 0)
  }

  /** The row with its lowest face-down card turned face-up. */
  function RevealFirst(s: seq<Slot>): (r: seq<Slot>)
    ensures |r| == |s|
    ensures FirstFaceDown(s).Some? ==> !IsFaceDown(r[FirstFaceDown(s).value])
    ensures forall j :: 0 <= j < |s| && r[j] != s[j] ==>
              FirstFaceDown(s) == Some(j) && r[j] == Occupied(s[j].card.(faceDown := false))
  {
    match FirstFaceDown(s)
    case None => s
    case Some(k) => s[k := Occupied(s[k].card.(faceDown := false))]
  }

  /** The number of face-down cards in a row. */
  function CountFaceDown(s: seq<Slot>): nat
  {
    if |s| == 0 then 0 else (if IsFaceDown(s[0]) then 1 else 0) + CountFaceDown(s[1..])
  }

  /** Turning the card in slot i face-up lowers the count of face-down cards by one. */
  lemma {:induction false} CountAfterTurningUp(s: seq<Slot>, i: nat)
    requires i < |s| && IsFaceDown(s[i])
    ensures CountFaceDown(s[i := Occupied(s[i].card.(faceDown := false))]) == CountFaceDown(s) - 1
  {
    var t := s[i := Occupied(s[i].card.(faceDown := false))];
    if i == 0 {
      assert t[1..] == s[1..];
    } else {
      assert t[1..] == s[1..][i - 1 := Occupied(s[1..][i - 1].card.(faceDown := false))];
      CountAfterTurningUp(s[1..], i - 1);
    }
  }

  /** A row with no face-down card counts zero, and one that counts zero has none. */
  lemma {:induction false} CountZeroIffNoneFaceDown(s: seq<Slot>)
    ensures CountFaceDown(s) == 0 <==> forall j :: 0 <= j < |s| ==> !IsFaceDown(s[j])
  {
    if |s| != 0 {
      CountZeroIffNoneFaceDown(s[1..]);
      assert forall j :: 1 <= j < |s| ==> s[j] == s[1..][j - 1];
    }
  }

  /** Revealing turns exactly the lowest face-down card face-up, keeps every card's entry
      and id, and lowers the face-down count by one; a row with nothing face-down is kept. */
  lemma RevealFirstSpec(s: seq<Slot>)
    ensures |RevealFirst(s)| == |s|
    ensures FirstFaceDown(s).None? ==> RevealFirst(s) == s && CountFaceDown(s) == 0
    ensures FirstFaceDown(s).Some? ==>
              var k := FirstFaceDown(s).value;
              && (forall j :: 0 <= j < k ==> !IsFaceDown(s[j]))
              && IsFaceDown(s[k]) && !IsFaceDown(RevealFirst(s)[k])
              && RevealFirst(s)[k].card.def == s[k].card.def && RevealFirst(s)[k].card.id == s[k].card.id
              && (forall j :: 0 <= j < |s| && j != k ==> RevealFirst(s)[j] == s[j])
              && CountFaceDown(RevealFirst(s)) == CountFaceDown(s) - 1
  {
    match FirstFaceDown(s)
    case None => CountZeroIffNoneFaceDown(s);
    case Some(k) => CountAfterTurningUp(s, k);
  }

  /** Revealing a consumer does not change the shop: the shop already offered the
      incentives of face-down consumers. */
  lemma RevealKeepsShop(s: seq<Slot>)
    ensures ComposedShop(RevealFirst(s)) == ComposedShop(s)
  {
    match FirstFaceDown(s)
    case None =>
    case Some(k) => ShopIgnoresFaceDown(s, k, false);
  }

  /** The slot with any face-down card turned face-up. */
  function FaceUp(s: Slot): Slot
  {
    if IsFaceDown(s) then Occupied(s.card.(faceDown := false)) else s
  }

  /** The generator row with every card face-up. */
  function FaceUpAll(s: seq<Slot>): (r: seq<Slot>)
    ensures |r| == |s|
    ensures forall j :: 0 <= j < |s| ==> !IsFaceDown(r[j])
    ensures forall j :: 0 <= j < |s| && r[j] != s[j] ==>
              IsFaceDown(s[j]) && r[j] == Occupied(s[j].card.(faceDown := false))
  {
    seq(|s|, i requires 0 <= i < |s| => FaceUp(s[i]))
  }

  /** Turning every generator face-up leaves none face-down, changes no card's entry or id,
      keeps the slots that were face-up, and so keeps the presence of a Fossil. */
  lemma FaceUpAllSpec(s: seq<Slot>)
    ensures |FaceUpAll(s)| == |s|
    ensures forall j :: 0 <= j < |s| ==> !IsFaceDown(FaceUpAll(s)[j])
    ensures forall j :: 0 <= j < |s| ==> FaceUpAll(s)[j].Occupied? == s[j].Occupied?
    ensures forall j :: 0 <= j < |s| && s[j].Occupied? ==>
              FaceUpAll(s)[j].card.def == s[j].card.def && FaceUpAll(s)[j].card.id == s[j].card.id
    ensures forall j :: 0 <= j < |s| && !IsFaceDown(s[j]) ==> FaceUpAll(s)[j] == s[j]
    ensures HasFossil(FaceUpAll(s)) == HasFossil(s)
  {
    var t := FaceUpAll(s);
    if HasFossil(s) {
      var i :| 0 <= i < |s| && SameName(s[i], "Fossil");
      assert SameName(t[i], "Fossil");
    }
    if HasFossil(t) {
      var i :| 0 <= i < |t| && SameName(t[i], "Fossil");
      assert SameName(s[i], "Fossil");
    }
  }

  /** The lowest index from `from` on whose slot holds the incentive's mapped consumer. */
  function LowestMatchFrom(s: seq<Slot>, card: Card, from: nat): (r: Option<nat>)
    requires from <= |s|
    ensures r.Some? ==> from <= r.value < |s| && MatchesTarget(s[r.value], card)
                        && forall j :: from <= j < r.value ==> !MatchesTarget(s[j], card)
    ensures r.None? ==> forall j :: from <= j < |s| ==> !MatchesTarget(s[j], card)
    decreases |s| - from
  {
    if from == |s| then None
    else if MatchesTarget(s[from], card) then Some(from)
    else LowestMatchFrom(s, card, from + 1)
  }

  function LowestMatch(s: seq<Slot>, card: Card): Option<nat>
  {
    LowestMatchFrom(s, card, 0)
  }

  /** A consumer entry dealt in some order sits, face-up or face-down, in one of the
      consumer slots. */
  lemma DealtConsumerPresent(shuffled: seq<CardDef>, d: CardDef)
    requires multiset(shuffled) == multiset(CONSUMER_DEFS) && d in CONSUMER_DEFS
    ensures exists i :: 0 <= i < GRID_SIZE && HoldsConsumer(InitialConsumers(shuffled)[i])
                        && InitialConsumers(shuffled)[i].card.def == d
  {
    assert |shuffled| == |multiset(shuffled)| == |multiset(CONSUMER_DEFS)| == GRID_SIZE;
    assert d in multiset(shuffled);
    var p :| 0 <= p < |shuffled| && shuffled[p] == d;
    ConsumerEntries();
    var j :| 0 <= j < |CONSUMER_DEFS| && CONSUMER_DEFS[j] == d;
    assert CATALOG[j + 6] == d;
    assert HoldsConsumer(InitialConsumers(shuffled)[p]);
  }

  /** At the start of a game the shop offers every card of the catalog that is not a
      consumer: every incentive's consumer has been dealt. */
  lemma InitialShopOffersAll(shuffled: seq<CardDef>)
    requires multiset(shuffled) == multiset(CONSUMER_DEFS)
    ensures forall k :: 0 <= k < |CATALOG| && CATALOG[k].kind != Consumer ==>
              ShopItem(k) in ComposedShop(InitialConsumers(shuffled))
  {
    var cons := InitialConsumers(shuffled);
    ShopContents(cons);
    ConsumerEntries();
    forall k | 0 <= k < |CATALOG| && CATALOG[k].kind == Incentive
      ensures ShopItem(k) in ComposedShop(cons)
    {
      var name := CATALOG[k].name;
      assert NamedIn(name, Incentive);
      CatalogIncentivesAreMapped(name);
      MapEntriesAreCatalogued(name);
      var j :| 0 <= j < |CATALOG| && CATALOG[j].kind == Consumer && CATALOG[j].name == MatchingConsumer(name).value;
      assert CATALOG[j] == CONSUMER_DEFS[j - 6];
      DealtConsumerPresent(shuffled, CATALOG[j]);
    }
  }

  /** A row whose cards from index n on are exactly the face-down ones counts |s| - n. */
  lemma {:induction false} CountFaceDownSuffix(s: seq<Slot>, n: nat)
    requires n <= |s|
    requires forall i :: 0 <= i < |s| ==> (IsFaceDown(s[i]) <==> i >= n)
    ensures CountFaceDown(s) == |s| - n
  {
    if |s| != 0 {
      assert forall i :: 0 <= i < |s| - 1 ==> s[1..][i] == s[i + 1];
      if n == 0 {
        CountFaceDownSuffix(s[1..], 0);
      } else {
        CountFaceDownSuffix(s[1..], n - 1);
      }
    }
  }

  /** A new game has GRID_SIZE - INITIAL_REVEALED_CONSUMERS face-down consumers, so the
      turn advance has revealed them all after that many turns. */
  lemma InitialFaceDownCount(shuffled: seq<CardDef>)
    requires multiset(shuffled) == multiset(CONSUMER_DEFS)
    ensures CountFaceDown(InitialConsumers(shuffled)) == GRID_SIZE - INITIAL_REVEALED_CONSUMERS
  {
    assert |shuffled| == |multiset(shuffled)| == |multiset(CONSUMER_DEFS)| == GRID_SIZE;
    CountFaceDownSuffix(InitialConsumers(shuffled), INITIAL_REVEALED_CONSUMERS);
  }

  /** A row of GRID_SIZE slots of which only the first four may count sums those four
      (the first INITIAL_FOSSIL_COUNT generators, or INITIAL_REVEALED_CONSUMERS consumers). */
  lemma RowSumFirstFour(s: seq<Slot>, stat: Stat)
    requires |s| == GRID_SIZE && forall i :: INITIAL_REVEALED_CONSUMERS <= i < GRID_SIZE ==> !Counts(s[i])
    ensures RowSum(s, stat) == Contribution(s[0], stat) + Contribution(s[1], stat)
                             + Contribution(s[2], stat) + Contribution(s[3], stat)
  {
    HiddenRowSumsToZero(s[INITIAL_REVEALED_CONSUMERS..], stat);
    assert s[3..][1..] == s[4..];
    assert RowSum(s[3..], stat) == Contribution(s[3], stat);
    assert s[2..][1..] == s[3..];
    assert RowSum(s[2..], stat) == Contribution(s[2], stat) + Contribution(s[3], stat);
    assert s[1..][1..] == s[2..];
  }

  /** The totals a new game starts with: four Fossils and the four face-up consumers. */
  lemma InitialTotals(shuffled: seq<CardDef>, stat: Stat)
    requires multiset(shuffled) == multiset(CONSUMER_DEFS) && |shuffled| == GRID_SIZE
    ensures GridSum(Grid(InitialGenerators(), InitialConsumers(shuffled)), stat)
         == 4 * StatOf(FOSSIL, stat) + StatOf(shuffled[0], stat) + StatOf(shuffled[1], stat)
            + StatOf(shuffled[2], stat) + StatOf(shuffled[3], stat)
  {
    RowSumFirstFour(InitialGenerators(), stat);
    RowSumFirstFour(InitialConsumers(shuffled), stat);
  }

  /** The deal with the entries at i and j exchanged. */
  function Swap(s: seq<CardDef>, i: nat, j: nat): (r: seq<CardDef>)
    requires i < |s| && j < |s|
    ensures multiset(r) == multiset(s) && |r| == |s|
  {
    s[i := s[j]][j := s[i]]
  }

  /** Stability is not an invariant of the game: dealing Data Centre, Industry, Lights
      and Appliances face-up starts the game with an evening total of -1. */
  lemma InitialGridCanBeUnstable()
    ensures exists shuffled :: multiset(shuffled) == multiset(CONSUMER_DEFS) && |shuffled| == GRID_SIZE
              && GridSum(Grid(InitialGenerators(), InitialConsumers(shuffled)), Eve) == -1
  {
    ConsumerDefsListed();
    var shuffled := Swap(Swap(CONSUMER_DEFS, 0, 7), 2, 4);
    FirstFourAfterSwaps(CONSUMER_DEFS);
    InitialTotals(shuffled, Eve);
    assert StatOf(DATA_CENTRE, Eve) + StatOf(INDUSTRY, Eve) + StatOf(LIGHTS, Eve) + StatOf(APPLIANCES, Eve) == -9;
  }

  /** The first four entries of a deal of eight after exchanging entries 0 and 7, then 2 and 4. */
  lemma FirstFourAfterSwaps(s: seq<CardDef>)
    requires |s| == GRID_SIZE
    ensures Swap(Swap(s, 0, 7), 2, 4)[..4] == [s[7], s[1], s[4], s[3]]
  {
  }

  /** The game dealt in catalog order starts stable, with totals (7, 2, 1, 2). */
  lemma CatalogOrderDealTotals()
    ensures CalculateTotals(Grid(InitialGenerators(), InitialConsumers(CONSUMER_DEFS))) == Totals(7, 2, 1, 2)
  {
    ConsumerDefsListed();
    InitialTotals(CONSUMER_DEFS, Night);
    InitialTotals(CONSUMER_DEFS, Day);
    InitialTotals(CONSUMER_DEFS, Eve);
    InitialTotals(CONSUMER_DEFS, Flex);
  }

  /** Solar from the shop over a face-up Fossil moves the totals by (-1, 2, -1, -2). */
  lemma SolarOverFossil(g: Grid, i: nat)
    requires WellFormed(g) && i < GRID_SIZE && g.generators[i] == Occupied(Card(FOSSIL, FossilId(i), false))
    ensures var t := CalculateTotals(g);
            CalculateTotals(Apply(g, ShopItem(0), GeneratorSlot, i))
              == Totals(t.night - 1, t.day + 2, t.eve - 1, t.flex - 2)
  {
    assert ShopItem(0).def == SOLAR;
    ApplyShiftsTotals(g, ShopItem(0), GeneratorSlot, i);
  }

  /** The grid after Solar from the shop replaces the Fossil in slot 0 of the game dealt
      in catalog order. */
  function SolarPlacedGrid(): Grid
  {
    Committed(Grid(InitialGenerators(), InitialConsumers(CONSUMER_DEFS)), ShopItem(0), GeneratorSlot, 0)
  }

  /** That placement is offered and accepted and leaves (6, 4, 0, 0). */
  lemma SolarPlacementAccepted()
    ensures var g := Grid(InitialGenerators(), InitialConsumers(CONSUMER_DEFS));
            && ShopItem(0) in ComposedShop(g.consumers)
            && CanPlace(g, ShopItem(0), GeneratorSlot, 0)
            && CalculateTotals(SolarPlacedGrid()) == Totals(6, 4, 0, 0)
  {
    var g := Grid(InitialGenerators(), InitialConsumers(CONSUMER_DEFS));
    ShopContents(g.consumers);
    CatalogOrderDealTotals();
    SolarOverFossil(g, 0);
  }

  /** The other three starting Fossils stay where they were. */
  lemma SolarKeepsOtherFossils()
    ensures forall j :: 1 <= j < INITIAL_FOSSIL_COUNT ==> SameName(SolarPlacedGrid().generators[j], "Fossil")
  {
    var g := Grid(InitialGenerators(), InitialConsumers(CONSUMER_DEFS));
    assert FOSSIL.name == "Fossil";
    assert forall j :: 1 <= j < GRID_SIZE ==> SolarPlacedGrid().generators[j] == g.generators[j];
  }

  /** When no generator is face-down, the turn advance moves the totals by exactly the
      stats of the consumer it reveals. */
  lemma AdvanceAddsRevealedStats(g: Grid)
    requires FaceUpAll(g.generators) == g.generators && FirstFaceDown(g.consumers).Some?
    ensures var d := g.consumers[FirstFaceDown(g.consumers).value].card.def;
            var t := CalculateTotals(g);
            CalculateTotals(Grid(FaceUpAll(g.generators), RevealFirst(g.consumers)))
              == Totals(t.night + d.night, t.day + d.day, t.eve + d.eve, t.flex + d.flex)
  {
    var k := FirstFaceDown(g.consumers).value;
    var up := Occupied(g.consumers[k].card.(faceDown := false));
    RowSumUpdate(g.consumers, k, up, Night);
    RowSumUpdate(g.consumers, k, up, Day);
    RowSumUpdate(g.consumers, k, up, Eve);
    RowSumUpdate(g.consumers, k, up, Flex);
  }

  /** The advance after it turns no generator and reveals Lights in slot 4. */
  lemma LightsRevealedNext()
    ensures var c := SolarPlacedGrid();
            && FaceUpAll(c.generators) == c.generators
            && FirstFaceDown(c.consumers) == Some(4)
            && c.consumers[4].card.def == LIGHTS
  {
    var c := SolarPlacedGrid();
    ConsumerDefsListed();
    assert FaceUpAll(c.generators) == c.generators;
    assert FirstFaceDown(c.consumers) == Some(4);
  }

  /** Revealing a consumer can unbalance a stable grid in play. In the game dealt in
      catalog order, Solar from the shop replaces the Fossil in slot 0: the placement is
      accepted, the totals become (6, 4, 0, 0) and three Fossils remain. The turn advance
      then reveals Lights in slot 4, and the evening total drops to -2. */
  lemma RevealCanUnbalance()
    ensures var g := Grid(InitialGenerators(), InitialConsumers(CONSUMER_DEFS));
            var c := Committed(g, ShopItem(0), GeneratorSlot, 0);
            && ShopItem(0) in ComposedShop(g.consumers)
            && CanPlace(g, ShopItem(0), GeneratorSlot, 0)
            && Stable(CalculateTotals(c)) && HasFossil(c.generators)
            && (forall j :: 1 <= j < INITIAL_FOSSIL_COUNT ==> SameName(c.generators[j], "Fossil"))
            && FirstFaceDown(c.consumers) == Some(4) && c.consumers[4].card.def == LIGHTS
            && CalculateTotals(Grid(FaceUpAll(c.generators), RevealFirst(c.consumers))).eve == -2
  {
    SolarPlacementAccepted();
    SolarKeepsOtherFossils();
    LightsRevealedNext();
    AdvanceAddsRevealedStats(SolarPlacedGrid());
    assert SameName(SolarPlacedGrid().generators[1], "Fossil");
  }

  /** The whole game state. The two rows are arrays of GRID_SIZE slots, written in place. */
  class Game {
    var generators: array<Slot>
    var consumers: array<Slot>
    var shop: seq<Card>
    var turn: nat
    var gameWon: bool

    ghost predicate Valid()
      reads this
    {
      generators.Length == GRID_SIZE && consumers.Length == GRID_SIZE && generators != consumers
    }

    /** A snapshot of the two rows. */
    function View(): Grid
      reads this, generators, consumers
    {
      Grid(generators[..], consumers[..])
    }

    /** The state before the first game: empty rows, an empty shop, turn 1. */
    constructor ()
      ensures Valid() && fresh(generators) && fresh(consumers)
      ensures generators[..] == seq(GRID_SIZE, _ => Empty) && consumers[..] == seq(GRID_SIZE, _ => Empty)
      ensures shop == [] && turn == 1 && !gameWon
    {
      generators := new Slot[GRID_SIZE](_ => Empty);
      consumers := new Slot[GRID_SIZE](_ => Empty);
      shop := [];
      turn := 1;
      gameWon := false;
    }

    /** Starts a new game, dealing the consumers in the order `shuffled`, a permutation of
        the catalog's consumers that stands for the source's random shuffle. */
    method InitGame(shuffled: seq<CardDef>)
      requires multiset(shuffled) == multiset(CONSUMER_DEFS)
      modifies this
      ensures Valid() && fresh(generators) && fresh(consumers)
      ensures turn == 1 && !gameWon
      ensures generators[..] == InitialGenerators()
      ensures consumers[..] == InitialConsumers(shuffled)
      ensures shop == ComposedShop(consumers[..])
    {
      generators := DealFossils();
      consumers := DealConsumers(shuffled);
      shop := [];
      turn := 1;
      gameWon := false;
      UpdateShopInventory();
    }

    /** A fresh generator row holding the starting Fossils. */
    static method DealFossils() returns (gens: array<Slot>)
      ensures fresh(gens) && gens[..] == InitialGenerators()
    {
      gens := new Slot[GRID_SIZE](_ => Empty);
      for i := 0 to INITIAL_FOSSIL_COUNT
        invariant forall j :: 0 <= j < GRID_SIZE ==>
                    gens[j] == if j < i then Occupied(Card(FOSSIL, FossilId(j), false)) else Empty
      {
        gens[i] := Occupied(Card(FOSSIL, FossilId(i), false));
      }
    }

    /** A fresh consumer row dealt in the order `shuffled`. */
    static method DealConsumers(shuffled: seq<CardDef>) returns (cons: array<Slot>)
      ensures fresh(cons) && cons[..] == InitialConsumers(shuffled)
    {
      cons := new Slot[GRID_SIZE](_ => Empty);
      for i := 0 to GRID_SIZE
        invariant forall j :: 0 <= j < GRID_SIZE ==>
                    cons[j] == if j < i then InitialConsumers(shuffled)[j] else Empty
      {
        if i < |shuffled| {
          cons[i] := Occupied(Card(shuffled[i], ConsumerId(i), i >= INITIAL_REVEALED_CONSUMERS));
        }
      }
    }

    /** Rebuilds the shop from the catalog and the consumer row. */
    method UpdateShopInventory()
      requires Valid()
      modifies this`shop
      ensures shop == ComposedShop(consumers[..])
    {
      var available := CollectConsumerNames(consumers);
      shop := BuildShop(available);
    }

    /** The names of the Consumer cards in the row, face-down or not. */
    static method CollectConsumerNames(row: array<Slot>) returns (available: set<string>)
      ensures available == PresentConsumers(row[..])
    {
      available := {};
      for i := 0 to row.Length
        invariant available == PresentConsumers(row[..i])
      {
        var slot := row[i];
        if slot.Occupied? && slot.card.def.kind == Consumer {
          available := available + {slot.card.def.name};
        }
        assert row[..i + 1][..i] == row[..i];
      }
      assert row[..row.Length] == row[..];
    }

    /** The catalog entries on offer given the consumer names present, in catalog order. */
    static method BuildShop(available: set<string>) returns (shop: seq<Card>)
      ensures shop == ShopUpTo(|CATALOG|, available)
    {
      shop := [];
      for index := 0 to |CATALOG|
        invariant shop == ShopUpTo(index, available)
      {
        var entry := CATALOG[index];
        if entry.kind != Consumer {
          if entry.kind == Incentive {
            var matching := MatchingConsumer(entry.name);
            if matching.Some? && matching.value in available {
              shop := shop + [ShopItem(index)];
            }
          } else {
            shop := shop + [ShopItem(index)];
          }
        }
      }
    }

    /** Sets the win flag once no generator is a Fossil; never clears it. */
    method CheckWinCondition()
      requires Valid()
      modifies this`gameWon
      ensures gameWon == (old(gameWon) || !HasFossil(generators[..]))
    {
      if !HasFossil(generators[..]) {
        gameWon := true;
      }
    }

    /** What both kinds of play do once the grid is written: drop the card from the shop,
        rebuild the shop, and check for a win. */
    method FinishPlay(card: Card)
      requires Valid()
      modifies this`shop, this`gameWon
      ensures shop == ComposedShop(consumers[..])
      ensures gameWon == (old(gameWon) || !HasFossil(generators[..]))
    {
      shop := WithoutId(shop, card.id);
      UpdateShopInventory();
      CheckWinCondition();
    }

    /** Places `card` into slot `index` of the chosen row if the validator accepts it. */
    method PlaceCard(card: Card, slot: SlotKind, index: int) returns (placed: bool)
      requires Valid()
      modifies this, generators, consumers
      ensures Valid() && generators == old(generators) && consumers == old(consumers)
      ensures placed == CanPlace(old(View()), card, slot, index)
      ensures !placed ==> View() == old(View()) && shop == old(shop)
                          && turn == old(turn) && gameWon == old(gameWon)
      ensures placed ==> 0 <= index < GRID_SIZE && View() == Committed(old(View()), card, slot, index)
      ensures placed && slot == GeneratorSlot ==>
                generators[index] == Occupied(AsPlacedGenerator(card))
                && (card.def.kind == BigGenerator ==> generators[index].card.faceDown)
      ensures placed ==> shop == ComposedShop(consumers[..]) && turn == old(turn)
      ensures placed ==> gameWon == (old(gameWon) || !HasFossil(generators[..]))
      ensures placed && (slot == GeneratorSlot || card.def.kind == Incentive) ==>
                Stable(CalculateTotals(View()))
    {
      placed := CanPlace(View(), card, slot, index);
      if !placed {
        return;
      }
      if slot == GeneratorSlot {
        generators[index] := Occupied(AsPlacedGenerator(card));
      } else if card.def.kind == Incentive {
        // CanPlace has already checked that the slot holds the mapped consumer.
        consumers[index] := Occupied(card);
      }
      FinishPlay(card);
    }

    /** Plays an incentive onto the lowest consumer slot holding its mapped consumer,
        replacing that card, when `IncentiveTarget` accepts the play. */
    method PlayIncentive(card: Card) returns (played: bool)
      requires Valid()
      modifies this, consumers
      ensures Valid() && generators == old(generators) && consumers == old(consumers)
      ensures played <==> card.def.kind == Incentive && LowestMatch(old(consumers[..]), card).Some?
                          && CanPlace(old(View()), card, ConsumerSlot, LowestMatch(old(consumers[..]), card).value)
      ensures !played ==> View() == old(View()) && shop == old(shop)
                          && turn == old(turn) && gameWon == old(gameWon)
      ensures played ==>
                var k := LowestMatch(old(consumers[..]), card).value;
                && consumers[..] == old(consumers[..])[k := Occupied(card)]
                && generators[..] == old(generators[..])
                && Stable(CalculateTotals(View()))
                && shop == ComposedShop(consumers[..]) && turn == old(turn)
                && gameWon == (old(gameWon) || !HasFossil(generators[..]))
    {
      var target := IncentiveTarget(View(), consumers, card);
      if target.None? {
        return false;
      }
      var k := target.value;
      consumers[k] := Occupied(card);
      assert consumers[..] == old(consumers[..])[k := Occupied(card)];
      FinishPlay(card);
      played := true;
    }

    /** The checks of an incentive play: the slot it goes to, or None when the play is
        refused. The source tests "placeable anywhere" before searching; every rejection
        leaves the state as it was, so the order of the tests only changes the message the
        source shows. */
    static method IncentiveTarget(grid: Grid, row: array<Slot>, card: Card) returns (target: Option<nat>)
      requires WellFormed(grid) && row[..] == grid.consumers
      ensures target.Some? <==> card.def.kind == Incentive && LowestMatch(row[..], card).Some?
                                && CanPlace(grid, card, ConsumerSlot, LowestMatch(row[..], card).value)
      ensures target.Some? ==> target == LowestMatch(row[..], card) && target.value < GRID_SIZE
    {
      if card.def.kind != Incentive {
        return None;
      }
      target := FindTarget(row, card);
      if target.None? {
        return None;
      }
      var k := target.value;
      if !CanPlaceAnywhere(grid, card) {
        if CanPlace(grid, card, ConsumerSlot, k) {
          SlotOpenMeansAnywhere(grid, card, ConsumerSlot, k);
        }
        return None;
      }
      if !CanPlace(grid, card, ConsumerSlot, k) {
        return None;
      }
    }

    /** Advances the turn unless the game is won: reveals the lowest face-down consumer
        and turns every face-down generator face-up. */
    method NextTurn()
      requires Valid()
      modifies this, generators, consumers
      ensures Valid() && generators == old(generators) && consumers == old(consumers)
      ensures old(gameWon) ==> View() == old(View()) && shop == old(shop) && turn == old(turn) && gameWon
      ensures !old(gameWon) ==>
                && turn == old(turn) + 1
                && consumers[..] == RevealFirst(old(consumers[..]))
                && generators[..] == FaceUpAll(old(generators[..]))
                && shop == (if FirstFaceDown(old(consumers[..])).Some? then ComposedShop(consumers[..]) else old(shop))
                && gameWon == !HasFossil(generators[..])
    {
      if gameWon {
        return;
      }
      turn := turn + 1;
      var next := FindFaceDown(consumers);
      if next.Some? {
        var k := next.value;
        consumers[k] := Occupied(consumers[k].card.(faceDown := false));
        UpdateShopInventory();
      }
      TurnGeneratorsUp(generators);
      CheckWinCondition();
    }

    /** The lowest slot of the row holding the incentive's mapped consumer, if any. */
    static method FindTarget(row: array<Slot>, card: Card) returns (target: Option<nat>)
      ensures target == LowestMatch(row[..], card)
    {
      target := None;
      var i := 0;
      while i < row.Length && target.None?
        invariant 0 <= i <= row.Length
        invariant target.None? ==> forall j :: 0 <= j < i ==> !MatchesTarget(row[j], card)
        invariant target.Some? ==> target == LowestMatch(row[..], card)
      {
        if MatchesTarget(row[i], card) {
          target := Some(i);
        }
        i := i + 1;
      }
    }

    /** The lowest slot of the row holding a face-down card, if any. */
    static method FindFaceDown(row: array<Slot>) returns (next: Option<nat>)
      ensures next == FirstFaceDown(row[..])
    {
      next := None;
      var i := 0;
      while i < row.Length && next.None?
        invariant 0 <= i <= row.Length
        invariant next.None? ==> forall j :: 0 <= j < i ==> !IsFaceDown(row[j])
        invariant next.Some? ==> next == FirstFaceDown(row[..])
      {
        if IsFaceDown(row[i]) {
          next := Some(i);
        }
        i := i + 1;
      }
    }

    /** Turns every face-down card of the row face-up, in place. */
    static method TurnGeneratorsUp(row: array<Slot>)
      modifies row
      ensures row[..] == FaceUpAll(old(row[..]))
    {
      for i := 0 to row.Length
        invariant forall j :: 0 <= j < i ==> row[j] == FaceUp(old(row[j]))
        invariant forall j :: i <= j < row.Length ==> row[j] == old(row[j])
      {
        var slot := row[i];
        if slot.Occupied? && slot.card.faceDown {
          row[i] := Occupied(slot.card.(faceDown := false));
        }
      }
    }

    /** A placement followed, when it succeeds and does not win, by the turn advance the
        source schedules one second later. */
    method PlaceCardAndAdvance(card: Card, slot: SlotKind, index: int) returns (placed: bool)
      requires Valid()
      modifies this, generators, consumers
      ensures Valid() && generators == old(generators) && consumers == old(consumers)
      ensures placed == CanPlace(old(View()), card, slot, index)
      ensures !placed ==> View() == old(View()) && shop == old(shop)
                          && turn == old(turn) && gameWon == old(gameWon)
      ensures placed ==>
                var c := Committed(old(View()), card, slot, index);
                && gameWon == (old(gameWon) || !HasFossil(c.generators))
                && View() == (if gameWon then c else Grid(FaceUpAll(c.generators), RevealFirst(c.consumers)))
                && shop == ComposedShop(consumers[..])
                && turn == old(turn) + (if gameWon then 0 else 1)
    {
      placed := PlaceCard(card, slot, index);
      if placed && !gameWon {
        FaceUpAllSpec(generators[..]);
        RevealKeepsShop(consumers[..]);
        NextTurn();
      }
    }

    /** An incentive play followed, when it succeeds and does not win, by the turn advance. */
    method PlayIncentiveAndAdvance(card: Card) returns (played: bool)
      requires Valid()
      modifies this, generators, consumers
      ensures Valid() && generators == old(generators) && consumers == old(consumers)
      ensures played <==> card.def.kind == Incentive && LowestMatch(old(consumers[..]), card).Some?
                          && CanPlace(old(View()), card, ConsumerSlot, LowestMatch(old(consumers[..]), card).value)
      ensures !played ==> View() == old(View()) && shop == old(shop)
                          && turn == old(turn) && gameWon == old(gameWon)
      ensures played ==>
                var w := old(consumers[..])[LowestMatch(old(consumers[..]), card).value := Occupied(card)];
                && gameWon == (old(gameWon) || !HasFossil(old(generators[..])))
                && consumers[..] == (if gameWon then w else RevealFirst(w))
                && generators[..] == (if gameWon then old(generators[..]) else FaceUpAll(old(generators[..])))
                && shop == ComposedShop(consumers[..])
                && turn == old(turn) + (if gameWon then 0 else 1)
    {
      played := PlayIncentive(card);
      if played && !gameWon {
        FaceUpAllSpec(generators[..]);
        RevealKeepsShop(consumers[..]);
        NextTurn();
      }
    }
  }
}
