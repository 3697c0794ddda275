/**
  The store of app/src/main/java/com/example/game/GameData.kt: the same
  player record in the same `game_data` namespace, with generic integer
  stats and an inventory that refuses duplicates.
*/
module AppGameData {
  import opened Prefs
  import opened Stats

  /**
    `getStat(name, default)`; the source's `getStat(name)` is
    `GetStat(p, name, 0)`. Any key is accepted, including the record's own.
  */
  function GetStat(p: Store, name: string, default: int): (r: Read<int>)
    ensures name !in p ==> r == Ok(default)
    ensures name in p ==> (r.Ok? <==> p[name].IntValue?)
    ensures r.Ok? && name in p ==> p[name] == IntValue(r.value)
  {
    GetInt(p, name, default)
  }

  /** `updateStat(name, value)` */
  function WithStat(p: Store, name: string, value: int): (r: Store)
    ensures r.Keys == p.Keys + {name} && r[name] == IntValue(value)
    ensures forall k :: k in p && k != name ==> r[k] == p[k]
  {
    p[name := IntValue(value)]
  }

  /**
    The effect of `addToInventory(item)`: nothing when the read throws or the
    item is already held; otherwise the whole record is saved back with the
    item added.
  */
  function ItemAdded(p: Store, item: string): (r: Store)
    ensures LoadStats(p).ClassCast? ==> r == p
    ensures LoadStats(p).Ok? && item in LoadStats(p).value.inventory ==> r == p
    ensures LoadStats(p).Ok? && item !in LoadStats(p).value.inventory ==>
      r.Keys == p.Keys + StatKeys && forall k :: k in p && k !in StatKeys ==> r[k] == p[k]
  {
    match LoadStats(p)
    case ClassCast => p
    case Ok(v) => if item in v.inventory then p else StoreStats(p, v.(inventory := v.inventory + {item}))
  }

  /**
    The effect of `removeFromInventory(item)`: unless the read throws, the
    whole record is saved back without the item, whether or not it was held.
  */
  function ItemRemoved(p: Store, item: string): (r: Store)
    ensures LoadStats(p).ClassCast? ==> r == p
    ensures LoadStats(p).Ok? ==>
      r.Keys == p.Keys + StatKeys && forall k :: k in p && k !in StatKeys ==> r[k] == p[k]
  {
    match LoadStats(p)
    case ClassCast => p
    case Ok(v) => StoreStats(p, v.(inventory := v.inventory - {item}))
  }

  class GameData {
    /** The `game_data` namespace. */
    var prefs: Store

    constructor (prefs: Store)
      ensures this.prefs == prefs
    {
      this.prefs := prefs;
    }

    /** `getPlayerStats()`: throws on a wrong-typed entry, otherwise lists the stored record. */
    method GetPlayerStats() returns (r: Read<PlayerStats>)
      ensures r.ClassCast? <==> LoadStats(prefs).ClassCast?
      ensures r.Ok? ==> Lists(r.value, LoadStats(prefs).value)
    {
      r := ReadStats(prefs);
    }

    /** `savePlayerStats(stats)` */
    method SavePlayerStats(stats: PlayerStats)
      modifies this
      ensures prefs == StoreStats(old(prefs), Image(stats))
    {
      prefs := prefs[LuckKey := IntValue(stats.luck)];
      prefs := prefs[MindKey := IntValue(stats.mind)];
      prefs := prefs[PowerKey := IntValue(stats.power)];
      prefs := prefs[HpKey := IntValue(stats.hp)];
      prefs := prefs[CardsKey := IntValue(stats.cards)];
      prefs := prefs[LevelKey := IntValue(stats.level)];
      prefs := prefs[InventoryKey := StringSetValue(Elements(stats.inventory))];
    }

    /** `resetGameData()`: clears the namespace. */
    method ResetGameData()
      modifies this
      ensures prefs == map[]
    {
      prefs := map[];
    }

    /** `updateStat(name, value)`: writes one integer entry in place. */
    method UpdateStat(name: string, value: int)
      modifies this
      ensures prefs == WithStat(old(prefs), name, value)
    {
      prefs := prefs[name := IntValue(value)];
    }

    /** `addToInventory(item)` */
    method AddToInventory(item: string) returns (r: Read<()>)
      modifies this
      ensures r.ClassCast? <==> LoadStats(old(prefs)).ClassCast?
      ensures prefs == ItemAdded(old(prefs), item)
    {
      var current := GetPlayerStats();
      if current.ClassCast? {
        return ClassCast;
      }
      var newInventory := current.value.inventory;
      if item !in newInventory {
        ElementsAppend(newInventory, item);
        newInventory := newInventory + [item];
        SavePlayerStats(current.value.(inventory := newInventory));
      }
      r := Ok(());
    }

    /** `removeFromInventory(item)` */
    method RemoveFromInventory(item: string) returns (r: Read<()>)
      modifies this
      ensures r.ClassCast? <==> LoadStats(old(prefs)).ClassCast?
      ensures prefs == ItemRemoved(old(prefs), item)
    {
      var current := GetPlayerStats();
      if current.ClassCast? {
        return ClassCast;
      }
      RemoveFirstElements(current.value.inventory, item);
      var newInventory := RemoveFirst(current.value.inventory, item);
      SavePlayerStats(current.value.(inventory := newInventory));
      r := Ok(());
    }
  }

  /** A written stat reads back; a key never written reads as the caller's default. */
  lemma StatRoundTrip(p: Store, name: string, value: int, other: string, default: int)
    requires other != name && other !in p
    ensures GetStat(WithStat(p, name, value), name, default) == Ok(value)
    ensures GetStat(WithStat(p, name, value), other, default) == Ok(default)
  {
  }

  /**
    `updateStat` accepts any key, so writing an integer under the inventory
    key makes every later `getPlayerStats` throw.
  */
  lemma UpdateStatOnInventoryKey(p: Store, value: int)
    ensures LoadStats(WithStat(p, InventoryKey, value)).ClassCast?
  {
  }

  /**
    Adding yields the old set plus the item with the six numbers unchanged,
    is a no-op on the store when the item is already held, and is idempotent.
  */
  lemma AddToInventoryProperties(p: Store, item: string)
    requires LoadStats(p).Ok?
    ensures var v := LoadStats(p).value;
      LoadStats(ItemAdded(p, item)) == Ok(v.(inventory := v.inventory + {item}))
    ensures item in LoadStats(p).value.inventory ==> ItemAdded(p, item) == p
    ensures ItemAdded(ItemAdded(p, item), item) == ItemAdded(p, item)
  {
    var v := LoadStats(p).value;
    if item !in v.inventory {
      LoadAfterStore(p, v.(inventory := v.inventory + {item}));
    } else {
      assert v.inventory + {item} == v.inventory;
    }
  }

  /**
    Removing yields the old set without the item, with the six numbers
    unchanged; removing an item that is not held leaves every read as it was.
  */
  lemma RemoveFromInventoryProperties(p: Store, item: string)
    requires LoadStats(p).Ok?
    ensures var v := LoadStats(p).value;
      LoadStats(ItemRemoved(p, item)) == Ok(v.(inventory := v.inventory - {item}))
    ensures item !in LoadStats(p).value.inventory ==> LoadStats(ItemRemoved(p, item)) == LoadStats(p)
    ensures item !in LoadStats(ItemRemoved(p, item)).value.inventory
  {
    var v := LoadStats(p).value;
    LoadAfterStore(p, v.(inventory := v.inventory - {item}));
    if item !in v.inventory {
      assert v.inventory - {item} == v.inventory;
    }
  }

  /** After a reset the record reads as its defaults and every stat as the caller's default. */
  lemma ResetReadsDefaults(name: string, default: int)
    ensures LoadStats(map[]) == Ok(Image(DefaultStats))
    ensures GetStat(map[], name, default) == Ok(default)
  {
    LoadEmpty();
  }
}
