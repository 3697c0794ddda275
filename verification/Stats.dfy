/**
  The player record and how it is laid out in the `game_data` namespace.
  Both versions of GameData in the repository declare the same record, read
  the same seven keys with the same defaults and write them the same way.
*/
module Stats {
  import opened Options
  import opened Prefs

  const LuckKey := "luck"
  const MindKey := "mind"
  const PowerKey := "power"
  const HpKey := "hp"
  const CardsKey := "cards"
  const LevelKey := "level"
  const InventoryKey := "inventory"

  /** The keys `savePlayerStats` writes. */
  const StatKeys: set<string> := {LuckKey, MindKey, PowerKey, HpKey, CardsKey, LevelKey, InventoryKey}

  /** `PlayerStats`: the inventory is a list in memory. */
  datatype PlayerStats = PlayerStats(
    luck: int, mind: int, power: int, hp: int, cards: int, level: int,
    inventory: seq<string>)

  /** The record's default values. */
  const DefaultStats := PlayerStats(3, 3, 3, 100, 0, 1, [])

  /** What the store keeps of a record: the inventory only as a set. */
  datatype SavedStats = SavedStats(
    luck: int, mind: int, power: int, hp: int, cards: int, level: int,
    inventory: set<string>)

  function Elements(xs: seq<string>): set<string> {
    set x | x in xs
  }

  predicate NoDuplicates(xs: seq<string>) {
    forall i, j :: 0 <= i < j < |xs| ==> xs[i] != xs[j]
  }

  /** The part of `s` that saving keeps. */
  function Image(s: PlayerStats): SavedStats {
    SavedStats(s.luck, s.mind, s.power, s.hp, s.cards, s.level, Elements(s.inventory))
  }

  /**
    `s` is a record that reading `v` back can produce: the same six numbers,
    and an inventory that lists each stored item exactly once, in an order the
    platform's set does not fix.
  */
  predicate Lists(s: PlayerStats, v: SavedStats) {
    Image(s) == v && NoDuplicates(s.inventory)
  }

  /**
    The seven reads of `getPlayerStats`, each falling back to its default;
    any wrong-typed entry makes the whole call throw.
  */
  function LoadStats(p: Store): (r: Read<SavedStats>)
    ensures r.Ok? <==>
      (forall k :: k in p && k in StatKeys - {InventoryKey} ==> p[k].IntValue?)
      && (InventoryKey in p ==> p[InventoryKey].StringSetValue?)
    ensures r.Ok? ==>
      && IntOrDefault(p, LuckKey, r.value.luck, 3) && IntOrDefault(p, MindKey, r.value.mind, 3)
      && IntOrDefault(p, PowerKey, r.value.power, 3) && IntOrDefault(p, HpKey, r.value.hp, 100)
      && IntOrDefault(p, CardsKey, r.value.cards, 0) && IntOrDefault(p, LevelKey, r.value.level, 1)
    ensures r.Ok? ==>
      if InventoryKey in p then p[InventoryKey] == StringSetValue(r.value.inventory)
      else r.value.inventory == {}
  {
    var luck := GetInt(p, LuckKey, 3);
    var mind := GetInt(p, MindKey, 3);
    var power := GetInt(p, PowerKey, 3);
    var hp := GetInt(p, HpKey, 100);
    var cards := GetInt(p, CardsKey, 0);
    var level := GetInt(p, LevelKey, 1);
    var inventory := GetStringSet(p, InventoryKey);
    if luck.ClassCast? || mind.ClassCast? || power.ClassCast? || hp.ClassCast?
       || cards.ClassCast? || level.ClassCast? || inventory.ClassCast?
    then ClassCast
    else
      Ok(SavedStats(luck.value, mind.value, power.value, hp.value, cards.value, level.value,
                    if inventory.value.Some? then inventory.value.value else {}))
  }

  /** `v` is the integer stored under `key`, or `default` when the key is absent. */
  predicate IntOrDefault(p: Store, key: string, v: int, default: int) {
    if key in p then p[key] == IntValue(v) else v == default
  }

  /**
    The edit `savePlayerStats` applies: the seven stat keys are (re)written
    and every other key keeps its entry.
  */
  function StoreStats(p: Store, v: SavedStats): (r: Store)
    ensures r.Keys == p.Keys + StatKeys
    ensures forall k :: k in p && k !in StatKeys ==> r[k] == p[k]
  {
    p[LuckKey := IntValue(v.luck)]
     [MindKey := IntValue(v.mind)]
     [PowerKey := IntValue(v.power)]
     [HpKey := IntValue(v.hp)]
     [CardsKey := IntValue(v.cards)]
     [LevelKey := IntValue(v.level)]
     [InventoryKey := StringSetValue(v.inventory)]
  }

  /** An empty store reads as the default record with an empty inventory. */
  lemma LoadEmpty()
    ensures LoadStats(map[]) == Ok(Image(DefaultStats))
    ensures Image(DefaultStats) == SavedStats(3, 3, 3, 100, 0, 1, {})
  {
  }

  /**
    Reading after saving gives back all six numbers and the set of the saved
    inventory, whatever the store held before.
  */
  lemma LoadAfterStore(p: Store, v: SavedStats)
    ensures LoadStats(StoreStats(p, v)) == Ok(v)
  {
  }

  /** Saving twice is saving once. */
  lemma StoreIdempotent(p: Store, v: SavedStats)
    ensures StoreStats(StoreStats(p, v), v) == StoreStats(p, v)
  {
  }

  /** Saving what was just read changes nothing that a later read sees. */
  lemma StoreWhatWasLoaded(p: Store, s: PlayerStats)
    requires LoadStats(p).Ok? && Lists(s, LoadStats(p).value)
    ensures LoadStats(StoreStats(p, Image(s))) == LoadStats(p)
  {
    LoadAfterStore(p, Image(s));
  }

  /** Appending an item adds it to the set of elements. */
  lemma ElementsAppend(xs: seq<string>, x: string)
    ensures Elements(xs + [x]) == Elements(xs) + {x}
  {
    assert forall y :: y in xs + [x] <==> y in xs || y == x;
  }

  /**
    `set.toList()`: lists the elements of `s`, each once, in an order the
    platform's hash set chooses (here, whichever element is picked first).
  */
  method ListOf(s: set<string>) returns (xs: seq<string>)
    ensures Elements(xs) == s && NoDuplicates(xs)
  {
    xs := [];
    var rest := s;
    while rest != {}
      invariant Elements(xs) + rest == s
      invariant Elements(xs) !! rest
      invariant NoDuplicates(xs)
      decreases rest
    {
      var x :| x in rest;
      ElementsAppend(xs, x);
      xs := xs + [x];
      rest := rest - {x};
    }
  }

  /**
    Reading the record as `getPlayerStats()` does: a wrong-typed entry throws,
    otherwise the stored set is listed by `toList()`.
  */
  method ReadStats(p: Store) returns (r: Read<PlayerStats>)
    ensures r.ClassCast? <==> LoadStats(p).ClassCast?
    ensures r.Ok? ==> Lists(r.value, LoadStats(p).value)
  {
    match LoadStats(p)
    case ClassCast =>
      r := ClassCast;
    case Ok(v) =>
      var inventory := ListOf(v.inventory);
      r := Ok(PlayerStats(v.luck, v.mind, v.power, v.hp, v.cards, v.level, inventory));
  }

  /** `list.count { it == x }` */
  function Count(xs: seq<string>, x: string): (r: nat)
    ensures r == multiset(xs)[x]
  {
    if xs == [] then 0
    else
      assert xs == [xs[0]] + xs[1..];
      (if xs[0] == x then 1 else 0) + Count(xs[1..], x)
  }

  /** In a list without duplicates an item occurs once if present and not at all otherwise. */
  lemma {:induction false} CountWithoutDuplicates(xs: seq<string>, x: string)
    requires NoDuplicates(xs)
    ensures Count(xs, x) == if x in xs then 1 else 0
  {
    if xs != [] {
      assert NoDuplicates(xs[1..]);
      CountWithoutDuplicates(xs[1..], x);
      assert x in xs <==> xs[0] == x || x in xs[1..];
      if xs[0] == x {
        assert forall k :: 0 <= k < |xs[1..]| ==> xs[1..][k] == xs[k + 1] != xs[0];
      }
    }
  }

  /**
    Kotlin's `MutableList.remove(x)`: drops the first occurrence of `x`, if any.
  */
  function RemoveFirst(xs: seq<string>, x: string): (r: seq<string>)
    ensures multiset(r) == multiset(xs) - multiset{x}
    ensures x !in xs ==> r == xs
    ensures x in xs ==> |r| == |xs| - 1
  {
    if xs == [] then []
    else
      assert xs == [xs[0]] + xs[1..];
      if xs[0] == x then xs[1..]
      else [xs[0]] + RemoveFirst(xs[1..], x)
  }

  /** `r` is `xs` without its element at `i`, which is the first `x` in `xs`. */
  predicate RemovedFirstAt(xs: seq<string>, x: string, r: seq<string>, i: int) {
    0 <= i < |xs| && xs[i] == x && x !in xs[..i] && r == xs[..i] + xs[i + 1..]
  }

  /** `remove(x)` takes out the first occurrence: the one with no `x` before it. */
  lemma {:induction false} RemoveFirstAtFirst(xs: seq<string>, x: string)
    requires x in xs
    ensures exists i :: RemovedFirstAt(xs, x, RemoveFirst(xs, x), i)
  {
    if xs[0] == x {
      assert RemovedFirstAt(xs, x, RemoveFirst(xs, x), 0);
    } else {
      assert x in xs[1..];
      RemoveFirstAtFirst(xs[1..], x);
      var j :| RemovedFirstAt(xs[1..], x, RemoveFirst(xs[1..], x), j);
      RemovedFirstAtStep(xs, x, j);
    }
  }

  /** A first occurrence in the tail, behind a head that is not `x`, is the first in `xs`. */
  lemma RemovedFirstAtStep(xs: seq<string>, x: string, j: int)
    requires xs != [] && xs[0] != x
    requires RemovedFirstAt(xs[1..], x, RemoveFirst(xs[1..], x), j)
    ensures RemovedFirstAt(xs, x, RemoveFirst(xs, x), j + 1)
  {
    var tail := xs[1..];
    var r := RemoveFirst(tail, x);
    assert RemoveFirst(xs, x) == [xs[0]] + r;
    assert r == tail[..j] + tail[j + 1..];
    assert xs[..j + 1] == [xs[0]] + tail[..j];
    assert xs[j + 2..] == tail[j + 1..];
    assert x !in xs[..j + 1] by {
      assert forall y :: y in [xs[0]] + tail[..j] ==> y == xs[0] || y in tail[..j];
    }
    assert [xs[0]] + r == xs[..j + 1] + xs[j + 2..];
  }

  /** On a list without duplicates, removing the first occurrence removes the item from the set. */
  lemma RemoveFirstElements(xs: seq<string>, x: string)
    requires NoDuplicates(xs)
    ensures Elements(RemoveFirst(xs, x)) == Elements(xs) - {x}
  {
    var r := RemoveFirst(xs, x);
    CountWithoutDuplicates(xs, x);
    assert multiset(xs)[x] <= 1;
    forall y
      ensures y in Elements(r) <==> y in Elements(xs) - {x}
    {
      InElements(r, y);
      InElements(xs, y);
    }
  }

  lemma InElements(xs: seq<string>, y: string)
    ensures y in Elements(xs) <==> multiset(xs)[y] > 0
  {
  }
}
