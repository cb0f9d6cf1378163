/** The card catalog of the Power-Flex puzzle and the incentive-to-consumer map. */
module CardCatalog {

  datatype Option<T> = None | Some(value: T)

  /** A card's category. */
  datatype Kind = Generator | BigGenerator | Consumer | Incentive

  /** One catalog entry: a name, a category and four pre-signed stats. */
  datatype CardDef = CardDef(name: string, kind: Kind, night: int, day: int, eve: int, flex: int)

  /** The id a card instance carries, standing for the strings `fossil-<slot>`,
      `consumer-<slot>` and `shop-<catalog index>`. */
  datatype CardId = FossilId(slot: nat) | ConsumerId(slot: nat) | ShopId(index: nat)

  /** A card instance: a catalog entry, an id and the face-down flag (absent in the
      source on cards that were never turned, which reads as false). */
  datatype Card = Card(def: CardDef, id: CardId, faceDown: bool)

  const GRID_SIZE: nat := 8
  const INITIAL_FOSSIL_COUNT: nat := 4
  const INITIAL_REVEALED_CONSUMERS: nat := 4

  /** The catalog entries, with stats pre-signed: supply positive, demand negative. */
  const SOLAR: CardDef := CardDef("Solar", Generator, 1, 4, 1, -1)
  const WIND: CardDef := CardDef("Wind", Generator, 2, 1, 3, -1)
  const TIDAL: CardDef := CardDef("Tidal", Generator, 3, 0, 3, 0)
  const FOSSIL: CardDef := CardDef("Fossil", Generator, 2, 2, 2, 1)
  const HYDRO: CardDef := CardDef("Hydro", BigGenerator, 2, 2, 2, 2)
  const NUCLEAR: CardDef := CardDef("Nuclear", BigGenerator, 3, 3, 3, 0)
  const AC: CardDef := CardDef("AC", Consumer, 0, -2, -1, 0)
  const INDUSTRY: CardDef := CardDef("Industry", Consumer, 0, -3, -2, -2)
  const EVS: CardDef := CardDef("EVs", Consumer, -1, 0, -1, 0)
  const APPLIANCES: CardDef := CardDef("Appliances", Consumer, 0, -1, -3, 0)
  const LIGHTS: CardDef := CardDef("Lights", Consumer, -1, -1, -2, 0)
  const HEATING: CardDef := CardDef("Heating", Consumer, -1, 0, -2, 0)
  const INFRASTRUCTURE: CardDef := CardDef("Infrastructure", Consumer, -1, -1, -2, 0)
  const DATA_CENTRE: CardDef := CardDef("Data Centre", Consumer, -1, -2, -2, 0)
  const ADAPTIVE_SERVERS: CardDef := CardDef("Adaptive Servers", Incentive, -2, -2, -1, 1)
  const SMART_GRID: CardDef := CardDef("Smart Grid", Incentive, -1, 0, 0, 1)
  const SMART_APPLIANCES: CardDef := CardDef("Smart Appliances", Incentive, -1, -1, -1, 0)
  const SMART_INDUSTRY: CardDef := CardDef("Smart Industry", Incentive, -2, -2, -1, -2)
  const SMART_EVS: CardDef := CardDef("Smart EVs", Incentive, -2, 0, 0, 1)
  const LED_LIGHTS: CardDef := CardDef("LED Lights", Incentive, -1, 0, -1, 0)
  const HEAT_PUMPS: CardDef := CardDef("Heat Pumps", Incentive, -1, 0, -1, 1)
  const PASSIVE_COOLING: CardDef := CardDef("Passive Cooling", Incentive, 0, -1, -1, 0)

  /** The catalog in the source's order; a shop card's id is its index here. */
  const CATALOG: seq<CardDef> := [
    SOLAR, WIND, TIDAL, FOSSIL, HYDRO, NUCLEAR,
    AC, INDUSTRY, EVS, APPLIANCES, LIGHTS, HEATING,
    INFRASTRUCTURE, DATA_CENTRE, ADAPTIVE_SERVERS, SMART_GRID, SMART_APPLIANCES, SMART_INDUSTRY,
    SMART_EVS, LED_LIGHTS, HEAT_PUMPS, PASSIVE_COOLING
  ]

  /** The source finds the Fossil entry by name: it is the first entry called "Fossil". */
  lemma FossilIsFound()
    ensures CATALOG[3] == FOSSIL && FOSSIL.name == "Fossil"
    ensures forall i :: 0 <= i < 3 ==> CATALOG[i].name != "Fossil"
  {
    assert SOLAR.name[0] != 'F' && WIND.name[0] != 'F' && TIDAL.name[0] != 'F';
  }

  const INCENTIVE_MAP: map<string, string> := map[
    "Adaptive Servers" := "Data Centre",
    "Smart Grid" := "Infrastructure",
    "Smart Appliances" := "Appliances",
    "Smart Industry" := "Industry",
    "Smart EVs" := "EVs",
    "LED Lights" := "Lights",
    "Heat Pumps" := "Heating",
    "Passive Cooling" := "AC"
  ]

  /** The consumer name an incentive may replace, or None for any other name. */
  function MatchingConsumer(incentiveName: string): (r: Option<string>)
    ensures r.Some? ==> r.value != incentiveName
    ensures r.Some? ==> exists j :: 0 <= j < |CONSUMER_DEFS| && CONSUMER_DEFS[j].name == r.value
  {
    if incentiveName in INCENTIVE_MAP then
      MapValueIsDealt(incentiveName);
      Some(INCENTIVE_MAP[incentiveName])
    else None
  }

  /** Each name the map gives is one of the dealt consumers. */
  lemma MapValueIsDealt(n: string)
    requires n in INCENTIVE_MAP
    ensures exists j :: 0 <= j < |CONSUMER_DEFS| && CONSUMER_DEFS[j].name == INCENTIVE_MAP[n]
  {
    ConsumerDefsListed();
    if n == "Adaptive Servers" { assert CONSUMER_DEFS[7].name == INCENTIVE_MAP[n]; }
    else if n == "Smart Grid" { assert CONSUMER_DEFS[6].name == INCENTIVE_MAP[n]; }
    else if n == "Smart Appliances" { assert CONSUMER_DEFS[3].name == INCENTIVE_MAP[n]; }
    else if n == "Smart Industry" { assert CONSUMER_DEFS[1].name == INCENTIVE_MAP[n]; }
    else if n == "Smart EVs" { assert CONSUMER_DEFS[2].name == INCENTIVE_MAP[n]; }
    else if n == "LED Lights" { assert CONSUMER_DEFS[4].name == INCENTIVE_MAP[n]; }
    else if n == "Heat Pumps" { assert CONSUMER_DEFS[5].name == INCENTIVE_MAP[n]; }
    else { assert CONSUMER_DEFS[0].name == INCENTIVE_MAP[n]; }
  }

  /** Some catalog entry of category `kind` is called `name`. */
  ghost predicate NamedIn(name: string, kind: Kind)
  {
    exists i :: 0 <= i < |CATALOG| && CATALOG[i].kind == kind && CATALOG[i].name == name
  }

  /** The catalog's consumer entries, in catalog order: the cards dealt onto the grid. */
  const CONSUMER_DEFS: seq<CardDef> := CATALOG[6..14]

  /** The catalog's entries of category Consumer are exactly those at indices 6 to 13,
      so the dealt entries are what filtering the catalog by category gives. */
  lemma ConsumerEntries()
    ensures forall i :: 0 <= i < |CATALOG| ==> (CATALOG[i].kind == Consumer <==> 6 <= i < 14)
  {
  }

  /** The dealt entries by name. */
  lemma ConsumerDefsListed()
    ensures |CONSUMER_DEFS| == 8
    ensures CONSUMER_DEFS[0] == AC && CONSUMER_DEFS[1] == INDUSTRY && CONSUMER_DEFS[2] == EVS
    ensures CONSUMER_DEFS[3] == APPLIANCES && CONSUMER_DEFS[4] == LIGHTS && CONSUMER_DEFS[5] == HEATING
    ensures CONSUMER_DEFS[6] == INFRASTRUCTURE && CONSUMER_DEFS[7] == DATA_CENTRE
  {
  }

  /** Every key of the map is a catalog incentive and every value a catalog consumer. */
  lemma MapEntriesAreCatalogued(n: string)
    requires MatchingConsumer(n).Some?
    ensures NamedIn(n, Incentive) && NamedIn(MatchingConsumer(n).value, Consumer)
  {
    MapKeyIsCatalogued(n);
    var j :| 0 <= j < |CONSUMER_DEFS| && CONSUMER_DEFS[j].name == MatchingConsumer(n).value;
    ConsumerEntries();
    assert CATALOG[j + 6] == CONSUMER_DEFS[j];
  }

  /** Each key of the map names a catalog incentive. */
  lemma MapKeyIsCatalogued(n: string)
    requires n in INCENTIVE_MAP
    ensures NamedIn(n, Incentive)
  {
    if n == "Adaptive Servers" { assert CATALOG[14].name == n; }
    else if n == "Smart Grid" { assert CATALOG[15].name == n; }
    else if n == "Smart Appliances" { assert CATALOG[16].name == n; }
    else if n == "Smart Industry" { assert CATALOG[17].name == n; }
    else if n == "Smart EVs" { assert CATALOG[18].name == n; }
    else if n == "LED Lights" { assert CATALOG[19].name == n; }
    else if n == "Heat Pumps" { assert CATALOG[20].name == n; }
    else { assert CATALOG[21].name == n; }
  }

  /** Every catalog incentive has a matching consumer. */
  lemma CatalogIncentivesAreMapped(n: string)
    requires NamedIn(n, Incentive)
    ensures MatchingConsumer(n).Some?
  {
    var i :| 0 <= i < |CATALOG| && CATALOG[i].kind == Incentive && CATALOG[i].name == n;
    assert 14 <= i < 22;
    assert i == 14 || i == 15 || i == 16 || i == 17 || i == 18 || i == 19 || i == 20 || i == 21;
  }

  /** No two incentives share a consumer, and no name maps to itself. */
  lemma IncentiveMapIsInjective(n: string, m: string)
    requires MatchingConsumer(n).Some? && MatchingConsumer(n) == MatchingConsumer(m)
    ensures n == m && MatchingConsumer(n) != Some(n)
  {
  }
}
