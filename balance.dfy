/** The balance calculator: the four totals of a grid, counting only face-up cards. */
module BalanceCalculator {
  import opened CardCatalog

  /** The four time-of-day statistics. */
  datatype Stat = Night | Day | Eve | Flex

  datatype Totals = Totals(night: int, day: int, eve: int, flex: int)

  /** A grid slot: empty (null in the source) or holding one card. */
  datatype Slot = Empty | Occupied(card: Card)

  /** A snapshot of the two rows of slots. */
  datatype Grid = Grid(generators: seq<Slot>, consumers: seq<Slot>)

  function StatOf(d: CardDef, stat: Stat): int
  {
    match stat
    case Night => d.night
    case Day => d.day
    case Eve => d.eve
    case Flex => d.flex
  }

  /** All four totals are non-negative: the grid is stable. */
  predicate Stable(t: Totals)
  {
    t.night >= 0 && t.day >= 0 && t.eve >= 0 && t.flex >= 0
  }

  /** A slot counts only when it holds a card that is not face-down. */
  predicate Counts(s: Slot)
  {
    s.Occupied? && !s.card.faceDown
  }

  /** What one slot adds to one total. */
  function Contribution(s: Slot, stat: Stat): int
  {
    if Counts(s) then StatOf(s.card.def, stat) else 0
  }

  /** One total summed over a row of slots. */
  function RowSum(s: seq<Slot>, stat: Stat): int
  {
    if |s| == 0 then 0 else Contribution(s[0], stat) + RowSum(s[1..], stat)
  }

  /** One total summed over both rows. */
  function GridSum(g: Grid, stat: Stat): int
  {
    RowSum(g.generators, stat) + RowSum(g.consumers, stat)
  }

  /** The totals of a grid, computed stat by stat. Empty slots and face-down cards add
      nothing, so a grid without a face-up card totals zero. */
  function CalculateTotals(g: Grid): (t: Totals)
    ensures NoneCounts(g.generators) && NoneCounts(g.consumers) ==> t == Totals(0, 0, 0, 0)
  {
    HiddenGridSumsToZero(g);
    Totals(GridSum(g, Night), GridSum(g, Day), GridSum(g, Eve), GridSum(g, Flex))
  }

  /** No slot of the row holds a face-up card. */
  predicate NoneCounts(s: seq<Slot>)
  {
    forall i :: 0 <= i < |s| ==> !Counts(s[i])
  }

  /** Both rows without a face-up card: every total is zero. */
  lemma HiddenGridSumsToZero(g: Grid)
    ensures NoneCounts(g.generators) && NoneCounts(g.consumers) ==> forall stat :: GridSum(g, stat) == 0
  {
    if NoneCounts(g.generators) && NoneCounts(g.consumers) {
      forall stat | true
        ensures GridSum(g, stat) == 0
      {
        HiddenRowSumsToZero(g.generators, stat);
        HiddenRowSumsToZero(g.consumers, stat);
      }
    }
  }

  /** Rewriting one slot shifts the row's sum by the new slot's contribution less the old one's. */
  lemma {:induction false} RowSumUpdate(s: seq<Slot>, i: nat, x: Slot, stat: Stat)
    requires i < |s|
    ensures RowSum(s[i := x], stat) == RowSum(s, stat) - Contribution(s[i], stat) + Contribution(x, stat)
  {
    if i == 0 {
      assert s[i := x][1..] == s[1..];
    } else {
      assert s[i := x][1..] == s[1..][i - 1 := x];
      RowSumUpdate(s[1..], i - 1, x, stat);
    }
  }

  /** A row in which no slot counts sums to zero, whatever the stats of its face-down cards. */
  lemma {:induction false} HiddenRowSumsToZero(s: seq<Slot>, stat: Stat)
    requires forall i :: 0 <= i < |s| ==> !Counts(s[i])
    ensures RowSum(s, stat) == 0
  {
    if |s| != 0 {
      assert !Counts(s[0]);
      HiddenRowSumsToZero(s[1..], stat);
    }
  }

  /** A face-down card adds nothing to its row, whatever its stats. */
  lemma FaceDownAddsNothing(s: seq<Slot>, i: nat, c: Card, stat: Stat)
    requires i < |s| && c.faceDown
    ensures RowSum(s[i := Occupied(c)], stat) == RowSum(s[i := Empty], stat)
  {
    RowSumUpdate(s, i, Occupied(c), stat);
    RowSumUpdate(s, i, Empty, stat);
  }

  /** A face-down card adds (0, 0, 0, 0): the grid totals with it in a slot are those of
      the same grid with that slot empty. */
  lemma FaceDownExcluded(g: Grid, i: nat, c: Card)
    requires i < |g.generators| && i < |g.consumers| && c.faceDown
    ensures CalculateTotals(g.(generators := g.generators[i := Occupied(c)]))
         == CalculateTotals(g.(generators := g.generators[i := Empty]))
    ensures CalculateTotals(g.(consumers := g.consumers[i := Occupied(c)]))
         == CalculateTotals(g.(consumers := g.consumers[i := Empty]))
  {
    FaceDownAddsNothing(g.generators, i, c, Night);
    FaceDownAddsNothing(g.generators, i, c, Day);
    FaceDownAddsNothing(g.generators, i, c, Eve);
    FaceDownAddsNothing(g.generators, i, c, Flex);
    FaceDownAddsNothing(g.consumers, i, c, Night);
    FaceDownAddsNothing(g.consumers, i, c, Day);
    FaceDownAddsNothing(g.consumers, i, c, Eve);
    FaceDownAddsNothing(g.consumers, i, c, Flex);
  }
}
