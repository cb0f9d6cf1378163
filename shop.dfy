/** The shop composer: the cards on offer, rebuilt from the catalog and the consumer row. */
module ShopComposer {
  import opened CardCatalog
  import opened BalanceCalculator

  /** The slot holds a card of category Consumer, face-down or not. */
  predicate HoldsConsumer(s: Slot)
  {
    s.Occupied? && s.card.def.kind == Consumer
  }

  /** The names of the Consumer cards in a row, collected slot by slot. */
  function PresentConsumers(s: seq<Slot>): (names: set<string>)
    ensures forall name :: name in names <==>
              exists i :: 0 <= i < |s| && HoldsConsumer(s[i]) && s[i].card.def.name == name
  {
    if |s| == 0 then {}
    else
      var last := s[|s| - 1];
      assert forall i :: 0 <= i < |s| - 1 ==> s[..|s| - 1][i] == s[i];
      PresentConsumers(s[..|s| - 1]) + (if HoldsConsumer(last) then {last.card.def.name} else {})
  }

  /** Is the catalog entry on offer, given the consumer names present on the grid? Every
      non-consumer is, except an incentive whose mapped consumer is absent. */
  predicate Offered(d: CardDef, present: set<string>)
  {
    d.kind != Consumer &&
    (d.kind == Incentive ==> MatchingConsumer(d.name).Some? && MatchingConsumer(d.name).value in present)
  }

  /** The shop card made from catalog entry k, with id `shop-<k>`. */
  function ShopItem(k: nat): Card
    requires k < |CATALOG|
  {
    Card(CATALOG[k], ShopId(k), false)
  }

  /** The shop built from the first n catalog entries, in catalog order. */
  function ShopUpTo(n: nat, present: set<string>): (shop: seq<Card>)
    requires n <= |CATALOG|
    ensures forall c :: c in shop <==> exists k :: 0 <= k < n && Offered(CATALOG[k], present) && c == ShopItem(k)
    ensures forall a :: 0 <= a < |shop| ==> shop[a].id.ShopId? && shop[a].id.index < n
    ensures forall a, b :: 0 <= a < b < |shop| ==> shop[a].id.index < shop[b].id.index
  {
    if n == 0 then []
    else ShopUpTo(n - 1, present) + (if Offered(CATALOG[n - 1], present) then [ShopItem(n - 1)] else [])
  }

  /** The shop as rebuilt from scratch for a consumer row. */
  function ComposedShop(consumers: seq<Slot>): (shop: seq<Card>)
    ensures forall c :: c in shop <==>
              exists k :: 0 <= k < |CATALOG| && Offered(CATALOG[k], PresentConsumers(consumers)) && c == ShopItem(k)
    ensures forall a :: 0 <= a < |shop| ==> shop[a].id.ShopId?
    ensures forall a, b :: 0 <= a < b < |shop| ==> shop[a].id.index < shop[b].id.index
  {
    ShopUpTo(|CATALOG|, PresentConsumers(consumers))
  }

  /** The shop offers every Generator and Big Generator and no Consumer, offers an
      incentive exactly when its mapped consumer sits in some slot (face-down or not), and
      lists its cards in catalog order with ids `shop-<catalog index>`. */
  lemma ShopContents(consumers: seq<Slot>)
    ensures forall k :: 0 <= k < |CATALOG| && CATALOG[k].kind in {Generator, BigGenerator} ==>
              ShopItem(k) in ComposedShop(consumers)
    ensures forall c :: c in ComposedShop(consumers) ==>
              c.def.kind != Consumer && c.id.ShopId? && c.id.index < |CATALOG| && c == ShopItem(c.id.index)
    ensures forall k :: 0 <= k < |CATALOG| && CATALOG[k].kind == Incentive ==>
              (ShopItem(k) in ComposedShop(consumers) <==>
                exists i :: 0 <= i < |consumers| && HoldsConsumer(consumers[i])
                            && MatchingConsumer(CATALOG[k].name) == Some(consumers[i].card.def.name))
    ensures forall a, b :: 0 <= a < b < |ComposedShop(consumers)| ==>
              ComposedShop(consumers)[a].id.index < ComposedShop(consumers)[b].id.index
  {
    var shop := ComposedShop(consumers);
    var present := PresentConsumers(consumers);
    forall k | 0 <= k < |CATALOG| && CATALOG[k].kind == Incentive
      ensures ShopItem(k) in shop <==>
                exists i :: 0 <= i < |consumers| && HoldsConsumer(consumers[i])
                            && MatchingConsumer(CATALOG[k].name) == Some(consumers[i].card.def.name)
    {
      if ShopItem(k) in shop {
        var k' :| 0 <= k' < |CATALOG| && Offered(CATALOG[k'], present) && ShopItem(k) == ShopItem(k');
        assert k' == k;
      }
    }
  }

  /** Turning a card in the consumer row face-up or face-down leaves the shop as it was. */
  lemma ShopIgnoresFaceDown(consumers: seq<Slot>, i: nat, faceDown: bool)
    requires i < |consumers| && consumers[i].Occupied?
    ensures ComposedShop(consumers[i := Occupied(consumers[i].card.(faceDown := faceDown))])
         == ComposedShop(consumers)
  {
    var flipped := consumers[i := Occupied(consumers[i].card.(faceDown := faceDown))];
    assert forall j :: 0 <= j < |consumers| ==>
      HoldsConsumer(flipped[j]) == HoldsConsumer(consumers[j]) &&
      (flipped[j].Occupied? ==> flipped[j].card.def == consumers[j].card.def);
    assert PresentConsumers(flipped) == PresentConsumers(consumers);
  }

  /** The shop without the card of the given id. */
  function WithoutId(shop: seq<Card>, id: CardId): (r: seq<Card>)
    ensures forall c :: c in r <==> c in shop && c.id != id
    ensures |r| <= |shop|
  {
    if |shop| == 0 then []
    else (if shop[0].id == id then [] else [shop[0]]) + WithoutId(shop[1..], id)
  }
}
