/** The achievement market: a price per rarity, the rarity filter, and
    buying an item with piggy coins. The coins and the inventory are the
    store's; here they are the fields of a wallet. */
module Marketplace {
  import opened Text
  import opened Lists
  import opened Items

  /** The price map of `shopItems`. */
  function Price(rarity: string): (p: int)
    ensures p in {50, 100, 250, 500}
  {
    if rarity == "legendary" then 500
    else if rarity == "epic" then 250
    else if rarity == "rare" then 100
    else 50
  }

  /** Rarer items cost more: legendary over epic over rare over anything
      else. */
  lemma PriceOrder(rarity: string)
    ensures Price("legendary") > Price("epic") > Price("rare")
    ensures rarity !in ["legendary", "epic", "rare"] ==> Price("rare") > Price(rarity)
    ensures rarity !in ["legendary", "epic", "rare"] ==> Price(rarity) == 50
  {
  }

  /** `filteredItems`: everything for `'ALL'`, otherwise the items whose
      uppercased rarity is the filter. */
  function Filtered(items: seq<Item>, filter: string): seq<Item>
  {
    if filter == "ALL" then items else Filter(items, (i: Item) => ToUpper(i.rarity) == filter)
  }

  lemma FilteredSpec(items: seq<Item>, filter: string)
    ensures filter == "ALL" ==> Filtered(items, filter) == items
    ensures filter != "ALL" ==>
      forall i :: i in Filtered(items, filter) <==> i in items && ToUpper(i.rarity) == filter
  {
    if filter != "ALL" {
      FilterMembers(items, (i: Item) => ToUpper(i.rarity) == filter);
    }
  }

  /** The buy button is disabled for an owned or unaffordable item. */
  predicate BuyDisabled(coins: int, inventory: seq<string>, item: Item)
  {
    item.id in inventory || coins < Price(item.rarity)
  }

  predicate NoDuplicates(s: seq<string>)
  {
    forall i, j :: 0 <= i < j < |s| ==> s[i] != s[j]
  }

  /** The coins and the owned item ids. */
  class Wallet {
    var piggyCoins: int
    var inventory: seq<string>

    constructor(coins: int, owned: seq<string>)
      ensures piggyCoins == coins && inventory == owned
    {
      piggyCoins := coins;
      inventory := owned;
    }

    /** `handlePurchase(item)`: a purchase happens exactly when the button
        is enabled; it takes the price and adds the item, and otherwise
        nothing changes. Coins never go negative and nothing is owned
        twice. */
    method Purchase(item: Item) returns (bought: bool)
      modifies this
      ensures bought <==> !BuyDisabled(old(piggyCoins), old(inventory), item)
      ensures bought ==> piggyCoins == old(piggyCoins) - Price(item.rarity) && inventory == old(inventory) + [item.id]
      ensures !bought ==> piggyCoins == old(piggyCoins) && inventory == old(inventory)
      ensures old(piggyCoins) >= 0 ==> piggyCoins >= 0
      ensures NoDuplicates(old(inventory)) ==> NoDuplicates(inventory)
    {
      var price := Price(item.rarity);
      bought := piggyCoins >= price && item.id !in inventory;
      if bought {
        piggyCoins := piggyCoins - price;
        inventory := inventory + [item.id];
      }
    }
  }
}
