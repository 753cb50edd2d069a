/** The wardrobe items and their lookups. */
module Items {
  import opened Common
  import opened Lists

  /** An item, without its icon and description; `kind` is the slot it is
      worn in. */
  datatype Item = Item(id: string, name: string, kind: string, rarity: string)

  /** `ITEMS`. */
  const ItemTable: seq<Item> := [
    Item("hat_cowboy", "Cowboy Hat", "HEAD", "common"),
    Item("crown_gold", "Golden Crown", "HEAD", "legendary"),
    Item("cap_blue", "Blue Cap", "HEAD", "common"),
    Item("hat_party", "Party Hat", "HEAD", "rare"),
    Item("glasses_sun", "Sunglasses", "EYES", "rare"),
    Item("glasses_nerd", "Smart Glasses", "EYES", "common"),
    Item("monocle", "Monocle", "EYES", "epic"),
    Item("tie_bow", "Bow Tie", "BODY", "common"),
    Item("scarf_winter", "Winter Scarf", "BODY", "rare"),
    Item("cape_hero", "Hero Cape", "BODY", "legendary"),
    Item("wand_magic", "Magic Wand", "HAND", "epic"),
    Item("bag_money", "Money Bag", "HAND", "rare"),
    Item("diamond", "Diamond", "HAND", "legendary")
  ]

  predicate IsSlot(kind: string)
  {
    kind == "HEAD" || kind == "EYES" || kind == "BODY" || kind == "HAND"
  }

  predicate IsRarity(rarity: string)
  {
    rarity == "common" || rarity == "rare" || rarity == "epic" || rarity == "legendary"
  }

  /** Every item is worn in one of the four slots, has one of the four
      rarities, and the ids are distinct. */
  lemma ItemTableWellFormed()
    ensures |ItemTable| == 13
    ensures forall i :: 0 <= i < |ItemTable| ==> IsSlot(ItemTable[i].kind) && IsRarity(ItemTable[i].rarity)
    ensures forall i, j :: 0 <= i < j < |ItemTable| ==> ItemTable[i].id != ItemTable[j].id
  {
  }

  /** `getItemById(id)`. */
  function ItemById(id: string): Option<Item>
  {
    Find(ItemTable, (it: Item) => it.id == id)
  }

  /** The lookup finds the item carrying the id, and nothing for any other
      id. */
  lemma ItemByIdSpec(id: string)
    ensures ItemById(id).None? <==> forall i :: 0 <= i < |ItemTable| ==> ItemTable[i].id != id
    ensures forall i :: 0 <= i < |ItemTable| && ItemTable[i].id == id ==> ItemById(id) == Some(ItemTable[i])
  {
    ItemTableWellFormed();
    forall i | 0 <= i < |ItemTable| && ItemTable[i].id == id
      ensures ItemById(id) == Some(ItemTable[i])
    {
      FindUnique(ItemTable, (it: Item) => it.id == id, i);
    }
  }

  /** `getRandomItem()`, with the value of `Math.random()` as a parameter:
      `ITEMS[Math.floor(r * ITEMS.length)]`. */
  function RandomItem(r: real): (it: Item)
    requires 0.0 <= r < 1.0
    ensures it in ItemTable
  {
    var k := (r * |ItemTable| as real).Floor;
    assert 0 <= k < |ItemTable| by {
      assert 0.0 <= r * |ItemTable| as real < |ItemTable| as real;
    }
    ItemTable[k]
  }
}
