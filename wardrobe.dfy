/** The wardrobe: choosing the character and equipping or taking off an
    item in one of the slots. The avatar configuration is the store's;
    here it is the fields of an avatar. */
module Wardrobe {
  import opened Common
  import opened Text
  import opened Lists
  import opened Items

  /** `avatarConfig.equipped`: a slot's item id, or `null`. */
  type Equipped = map<string, Option<string>>

  /** The new `equipped` map of `handleEquip(slot, itemId)`. */
  function Toggle(equipped: Equipped, slot: string, itemId: string): Equipped
  {
    var current := if slot in equipped then equipped[slot] else None;
    equipped[slot := if current == Some(itemId) then None else Some(itemId)]
  }

  /** The slot takes the item unless it already had it, and is then emptied;
      every other slot stays as it was. */
  lemma ToggleSpec(equipped: Equipped, slot: string, itemId: string)
    ensures var e := Toggle(equipped, slot, itemId);
      slot in e
      && (e[slot] == None <==> slot in equipped && equipped[slot] == Some(itemId))
      && (e[slot] != None ==> e[slot] == Some(itemId))
      && (forall t :: t != slot ==> (t in e <==> t in equipped) && (t in equipped ==> e[t] == equipped[t]))
  {
  }

  /** Equipping twice gives back the original map exactly when the slot was
      present and empty or already held that item; an item replaced by the
      first toggle is not put back. */
  lemma ToggleTwice(equipped: Equipped, slot: string, itemId: string)
    ensures Toggle(Toggle(equipped, slot, itemId), slot, itemId) == equipped
      <==> slot in equipped && (equipped[slot] == None || equipped[slot] == Some(itemId))
  {
    var twice := Toggle(Toggle(equipped, slot, itemId), slot, itemId);
    if twice == equipped {
      assert slot in twice;
    }
  }

  /** `getItemsForTab()`: nothing on the character tab, otherwise the items
      whose slot is the tab's name in capitals. */
  function ItemsForTab(tab: string): seq<Item>
  {
    if tab == "character" then [] else Filter(ItemTable, (i: Item) => i.kind == ToUpper(tab))
  }

  lemma ItemsForTabSpec(tab: string)
    ensures tab == "character" ==> ItemsForTab(tab) == []
    ensures tab != "character" ==>
      forall i :: i in ItemsForTab(tab) <==> i in ItemTable && i.kind == ToUpper(tab)
  {
    if tab != "character" {
      FilterMembers(ItemTable, (i: Item) => i.kind == ToUpper(tab));
    }
  }

  /** Every equipped item is one the player owns. */
  predicate EquippedOwned(equipped: Equipped, inventory: seq<string>)
  {
    forall slot :: slot in equipped && equipped[slot].Some? ==> equipped[slot].value in inventory
  }

  /** Toggling an owned item keeps every equipped item owned. */
  lemma ToggleKeepsOwned(equipped: Equipped, inventory: seq<string>, slot: string, itemId: string)
    requires EquippedOwned(equipped, inventory) && itemId in inventory
    ensures EquippedOwned(Toggle(equipped, slot, itemId), inventory)
  {
  }

  /** The avatar configuration. */
  class Avatar {
    var characterId: string
    var equipped: Equipped

    constructor(characterId: string, equipped: Equipped)
      ensures this.characterId == characterId && this.equipped == equipped
    {
      this.characterId := characterId;
      this.equipped := equipped;
    }

    /** `handleCharacterSelect(id)`: only the character changes. */
    method SelectCharacter(id: string)
      modifies this
      ensures characterId == id && equipped == old(equipped)
    {
      characterId := id;
    }

    /** `handleEquip(slot, itemId)`: the character stays. */
    method Equip(slot: string, itemId: string)
      modifies this
      ensures equipped == Toggle(old(equipped), slot, itemId) && characterId == old(characterId)
    {
      var currentEquipped := if slot in equipped then equipped[slot] else None;
      var newEquipped := if currentEquipped == Some(itemId) then None else Some(itemId);
      equipped := equipped[slot := newEquipped];
    }

    /** A click on an item tile: a locked item (not in the inventory) does
        nothing; an unlocked one is toggled in its own slot. */
    method ClickItem(item: Item, inventory: seq<string>)
      modifies this
      ensures item.id in inventory ==> equipped == Toggle(old(equipped), item.kind, item.id)
      ensures item.id !in inventory ==> equipped == old(equipped)
      ensures characterId == old(characterId)
      ensures EquippedOwned(old(equipped), inventory) ==> EquippedOwned(equipped, inventory)
    {
      if item.id in inventory {
        if EquippedOwned(equipped, inventory) {
          ToggleKeepsOwned(equipped, inventory, item.kind, item.id);
        }
        Equip(item.kind, item.id);
      }
    }
  }
}
