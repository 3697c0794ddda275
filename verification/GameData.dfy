/**
  The store of the top-level GameData.kt: the player record plus the
  selected companion and the end of the companion cooldown, all in the
  `game_data` namespace.
*/
module GameData {
  import opened Options
  import opened Prefs
  import opened Stats
  import opened Companions

  const SelectedKey := "selected_character"
  const CooldownKey := "cooldown_until"

  /** `Instant.now().minusSeconds(600)`: the fallback end of cooldown lies ten minutes in the past. */
  const CooldownFallbackMillis := 600 * 1000

  /** `getCurrentCompanionName()`: the stored name, or "" when none is stored. */
  function GetCurrentCompanionName(p: Store): (r: Read<string>)
    ensures r == Ok("") <==> SelectedKey !in p || p[SelectedKey] == StringValue("")
    ensures r.ClassCast? <==> SelectedKey in p && !p[SelectedKey].StringValue?
  {
    match GetString(p, SelectedKey)
    case ClassCast => ClassCast
    case Ok(name) => Ok(if name.Some? then name.value else "")
  }

  /**
    `getSelectedCharacter()`: the companion whose enum name is stored; null
    when nothing is stored or the string names no companion.
  */
  function GetSelectedCharacter(p: Store): (r: Read<Option<Companion>>)
    ensures r.ClassCast? <==> SelectedKey in p && !p[SelectedKey].StringValue?
    ensures forall c :: r == Ok(Some(c)) <==> SelectedKey in p && p[SelectedKey] == StringValue(Name(c))
  {
    match GetString(p, SelectedKey)
    case ClassCast => ClassCast
    case Ok(name) => Ok(FromName(if name.Some? then name.value else ""))
  }

  /** `setSelectedCharacter(c)`: writes the enum name, or removes the key for null. */
  function WithSelected(p: Store, c: Option<Companion>): Store {
    PutString(p, SelectedKey, if c.Some? then Some(Name(c.value)) else None)
  }

  /**
    `getCooldownUntil()` at time `now` (epoch milliseconds): the stored instant
    when it is positive, otherwise ten minutes before `now`, which is never
    on cooldown.
  */
  function GetCooldownUntil(p: Store, now: int): (r: Read<int>)
    ensures r.Ok? ==> r.value > 0 || r.value == now - CooldownFallbackMillis
    ensures r.Ok? && r.value > now ==> CooldownKey in p && p[CooldownKey] == LongValue(r.value)
    ensures CooldownKey in p && p[CooldownKey].LongValue? && p[CooldownKey].l > 0
      ==> r == Ok(p[CooldownKey].l)
    ensures CooldownKey !in p || (p[CooldownKey].LongValue? && p[CooldownKey].l <= 0)
      ==> r == Ok(now - CooldownFallbackMillis)
    ensures r.ClassCast? <==> CooldownKey in p && !p[CooldownKey].LongValue?
  {
    match GetLong(p, CooldownKey, 0)
    case ClassCast => ClassCast
    case Ok(millis) => Ok(if millis > 0 then millis else now - CooldownFallbackMillis)
  }

  /** `setCooldownUntil(t)`: stores the instant's epoch milliseconds. */
  function WithCooldown(p: Store, t: int): Store {
    p[CooldownKey := LongValue(t)]
  }

  /**
    The effect of `addToInventory(item)`: when the read succeeds, only the
    inventory key is rewritten, with the stored set plus the item.
  */
  function ItemAdded(p: Store, item: string): (r: Store)
    ensures LoadStats(p).ClassCast? ==> r == p
    ensures LoadStats(p).Ok? ==> r.Keys == p.Keys + {InventoryKey}
    ensures forall k :: k in p && k != InventoryKey ==> r[k] == p[k]
  {
    match LoadStats(p)
    case ClassCast => p
    case Ok(v) => p[InventoryKey := StringSetValue(v.inventory + {item})]
  }

  /** Every entry has the type this store's writers give its key. */
  predicate WellTyped(p: Store) {
    && (forall k :: k in p && k in StatKeys - {InventoryKey} ==> p[k].IntValue?)
    && (InventoryKey in p ==> p[InventoryKey].StringSetValue?)
    && (SelectedKey in p ==> p[SelectedKey].StringValue?)
    && (CooldownKey in p ==> p[CooldownKey].LongValue?)
  }

  class GameData {
    /** The `game_data` namespace. */
    var prefs: Store

    constructor (prefs: Store)
      ensures this.prefs == prefs
    {
      this.prefs := prefs;
    }

    /** `getPlayerStats()`: throws on a wrong-typed entry, otherwise lists the stored record. */
    method GetPlayerStats() returns (r: Read<PlayerStats>)
      ensures r.ClassCast? <==> LoadStats(prefs).ClassCast?
      ensures r.Ok? ==> Lists(r.value, LoadStats(prefs).value)
    {
      r := ReadStats(prefs);
    }

    /** `savePlayerStats(stats)` */
    method SavePlayerStats(stats: PlayerStats)
      modifies this
      ensures prefs == StoreStats(old(prefs), Image(stats))
      ensures WellTyped(old(prefs)) ==> WellTyped(prefs)
    {
      prefs := prefs[LuckKey := IntValue(stats.luck)];
      prefs := prefs[MindKey := IntValue(stats.mind)];
      prefs := prefs[PowerKey := IntValue(stats.power)];
      prefs := prefs[HpKey := IntValue(stats.hp)];
      prefs := prefs[CardsKey := IntValue(stats.cards)];
      prefs := prefs[LevelKey := IntValue(stats.level)];
      prefs := prefs[InventoryKey := StringSetValue(Elements(stats.inventory))];
    }

    /**
      `addToInventory(item)`: reads the record (and throws if that throws),
      appends the item to the list and writes the list back as a set.
    */
    method AddToInventory(item: string) returns (r: Read<()>)
      modifies this
      ensures r.ClassCast? <==> LoadStats(old(prefs)).ClassCast?
      ensures prefs == ItemAdded(old(prefs), item)
      ensures WellTyped(old(prefs)) ==> WellTyped(prefs)
    {
      var stats := GetPlayerStats();
      if stats.ClassCast? {
        return ClassCast;
      }
      var inventory := stats.value.inventory + [item];
      ElementsAppend(stats.value.inventory, item);
      prefs := prefs[InventoryKey := StringSetValue(Elements(inventory))];
      r := Ok(());
    }

    /** `setInventory(list)`: stores the list as a set, nothing else. */
    method SetInventory(list: seq<string>)
      modifies this
      ensures prefs == old(prefs)[InventoryKey := StringSetValue(Elements(list))]
    {
      prefs := prefs[InventoryKey := StringSetValue(Elements(list))];
    }

    /** `setSelectedCharacter(c)` */
    method SetSelectedCharacter(c: Option<Companion>)
      modifies this
      ensures prefs == WithSelected(old(prefs), c)
      ensures WellTyped(old(prefs)) ==> WellTyped(prefs)
    {
      match c
      case None => prefs := prefs - {SelectedKey};
      case Some(companion) => prefs := prefs[SelectedKey := StringValue(Name(companion))];
    }

    /** `setCooldownUntil(t)` */
    method SetCooldownUntil(t: int)
      modifies this
      ensures prefs == WithCooldown(old(prefs), t)
      ensures WellTyped(old(prefs)) ==> WellTyped(prefs)
    {
      prefs := prefs[CooldownKey := LongValue(t)];
    }

    /** `resetGameData()`: clears the namespace. */
    method ResetGameData()
      modifies this
      ensures prefs == map[]
    {
      prefs := map[];
    }
  }

  /** A store written only through this class never throws on a read. */
  lemma WellTypedReadsSucceed(p: Store, now: int)
    requires WellTyped(p)
    ensures LoadStats(p).Ok?
    ensures GetCurrentCompanionName(p).Ok? && GetSelectedCharacter(p).Ok?
    ensures GetCooldownUntil(p, now).Ok?
  {
  }

  /**
    Adding to the inventory leaves the stored set equal to the old set plus
    the item and every other read unchanged; adding twice is adding once.
  */
  lemma AddToInventoryUnion(p: Store, item: string)
    requires LoadStats(p).Ok?
    ensures LoadStats(ItemAdded(p, item)) == Ok(LoadStats(p).value.(inventory := LoadStats(p).value.inventory + {item}))
    ensures ItemAdded(ItemAdded(p, item), item) == ItemAdded(p, item)
    ensures forall k :: k in p && k != InventoryKey ==> k in ItemAdded(p, item) && ItemAdded(p, item)[k] == p[k]
  {
    var v := LoadStats(p).value;
    var q := ItemAdded(p, item);
    assert LoadStats(q) == Ok(v.(inventory := v.inventory + {item}));
    assert v.inventory + {item} + {item} == v.inventory + {item};
  }

  /** Storing a companion (or none) and reading it back gives the same value. */
  lemma SelectedCharacterRoundTrip(p: Store, c: Option<Companion>)
    ensures GetSelectedCharacter(WithSelected(p, c)) == Ok(c)
    ensures c.None? ==> GetCurrentCompanionName(WithSelected(p, c)) == Ok("")
    ensures c.Some? ==> GetCurrentCompanionName(WithSelected(p, c)) == Ok(Name(c.value))
  {
  }

  /**
    The cooldown instant round-trips when it is positive; a non-positive or
    missing one reads as ten minutes before `now`, so it is never in the future.
  */
  lemma CooldownRoundTrip(p: Store, t: int, now: int)
    ensures GetCooldownUntil(WithCooldown(p, t), now) == Ok(if t > 0 then t else now - CooldownFallbackMillis)
    ensures CooldownKey !in p ==> GetCooldownUntil(p, now) == Ok(now - CooldownFallbackMillis)
  {
  }

  /** After a reset every read returns its default and nothing is on cooldown. */
  lemma ResetReadsDefaults(now: int)
    ensures LoadStats(map[]) == Ok(Image(DefaultStats))
    ensures GetSelectedCharacter(map[]) == Ok(None)
    ensures GetCurrentCompanionName(map[]) == Ok("")
    ensures GetCooldownUntil(map[], now) == Ok(now - CooldownFallbackMillis)
    ensures GetCooldownUntil(map[], now).value <= now
  {
    LoadEmpty();
  }
}
