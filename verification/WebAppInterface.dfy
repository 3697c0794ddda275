/**
  The bridge the embedded game page calls (WebAppInterface.kt): it reads and
  writes the `game_data` store through the top-level GameData and keeps the
  page's own progress in the `game_progress` namespace. A JSON object is
  modelled as its field/value map.
*/
module WebAppInterface {
  import opened Options
  import opened Prefs
  import opened Stats
  import opened Strings
  import Companions
  import GameData

  datatype Json = JInt(n: int) | JString(s: string)

  type JsonObject = map<string, Json>

  /** The characters `parseInventory` trims from each piece. */
  const PieceTrim: set<char> := {'"', ' ', ','}

  /** Non-empty, and neither first nor last character is one the parser trims. */
  predicate Trimmed(x: string) {
    x != [] && x[0] !in PieceTrim && x[|x| - 1] !in PieceTrim
  }

  /**
    `map { it.trim('"', ' ', ',') }.filter { it.isNotEmpty() }`: every kept
    item is non-empty and starts and ends outside the trimmed characters; when
    no piece holds a comma, no item does.
  */
  function CleanPieces(pieces: seq<string>): (r: seq<string>)
    ensures forall i :: 0 <= i < |r| ==> Trimmed(r[i])
    ensures (forall j :: 0 <= j < |pieces| ==> ',' !in pieces[j]) ==> forall i :: 0 <= i < |r| ==> ',' !in r[i]
  {
    if pieces == [] then []
    else
      var item := Strip(pieces[0], PieceTrim);
      var rest := CleanPieces(pieces[1..]);
      if item == [] then rest else [item] + rest
  }

  /**
    `parseInventory(json)`: a blank input or `[]` gives no items; otherwise
    one leading `[` and one trailing `]` are removed, the rest is split at
    every comma and each piece is trimmed of quotes, spaces and commas, empty
    pieces being dropped.
  */
  function ParseInventory(json: string): (r: seq<string>)
    ensures Trim(json) == "" || Trim(json) == "[]" ==> r == []
    ensures forall i :: 0 <= i < |r| ==> Trimmed(r[i]) && ',' !in r[i]
  {
    if Trim(json) == "" || Trim(json) == "[]" then []
    else
      var pieces := Split(RemoveSuffix(RemovePrefix(json, '['), ']'), ',');
      var items := CleanPieces(pieces);
      assert forall i :: 0 <= i < |items| ==> Trimmed(items[i]);
      items
  }

  /** An item the parser gives back as it is: non-empty, no comma, no quote or space at its ends. */
  predicate PlainItem(x: string) {
    Trimmed(x) && ',' !in x
  }

  function Quote(x: string): string {
    "\"" + x + "\""
  }

  function QuoteAll(xs: seq<string>): (r: seq<string>)
    ensures |r| == |xs| && forall i :: 0 <= i < |xs| ==> r[i] == Quote(xs[i])
  {
    if xs == [] then [] else [Quote(xs[0])] + QuoteAll(xs[1..])
  }

  /** The array of strings `["a","b",…]` as the page writes it. */
  function EncodeInventory(items: seq<string>): string {
    "[" + Join(QuoteAll(items), ',') + "]"
  }

  lemma StripQuoted(x: string)
    requires PlainItem(x)
    ensures Strip(Quote(x), PieceTrim) == x
  {
    var q := Quote(x);
    assert q[1..] == x + "\"";
    assert StripStart(q, PieceTrim) == StripStart(x + "\"", PieceTrim);
    assert (x + "\"")[0] == x[0];
    assert StripStart(x + "\"", PieceTrim) == x + "\"";
    assert (x + "\"")[..|x|] == x;
    assert StripEnd(x + "\"", PieceTrim) == StripEnd(x, PieceTrim);
  }

  lemma {:induction false} CleanQuoted(items: seq<string>)
    requires forall i :: 0 <= i < |items| ==> PlainItem(items[i])
    ensures CleanPieces(QuoteAll(items)) == items
  {
    if items != [] {
      StripQuoted(items[0]);
      assert QuoteAll(items)[1..] == QuoteAll(items[1..]);
      CleanQuoted(items[1..]);
      assert [items[0]] + items[1..] == items;
    }
  }

  /**
    Parsing an array of plain items written as `["a","b",…]` gives back
    exactly those items, in order.
  */
  lemma {:induction false} ParseEncodedInventory(items: seq<string>)
    requires forall i :: 0 <= i < |items| ==> PlainItem(items[i])
    ensures ParseInventory(EncodeInventory(items)) == items
  {
    var e := EncodeInventory(items);
    if items == [] {
      assert e == "[]";
      StripUnchanged(e, Whitespace);
    } else {
      var q := QuoteAll(items);
      var body := Join(q, ',');
      JoinStartsWithFirst(q, ',');
      assert body[0] == '"';
      StripUnchanged(e, Whitespace);
      assert e[1] == '"';
      assert RemovePrefix(e, '[') == body + "]";
      assert (body + "]")[..|body|] == body;
      assert RemoveSuffix(body + "]", ']') == body;
      SplitJoin(q, ',');
      CleanQuoted(items);
    }
  }

  /** An empty inventory string parses to no items, without error. */
  lemma ParseEmptyInventory()
    ensures ParseInventory("") == []
  {
  }

  const ExportKeys: set<string> := {"luck", "mind", "power", "hp", "cards", "level", "inventory", "companion"}

  /**
    The object `getPlayerStats` and `syncStatsToJS` build: the six numbers,
    the inventory joined with commas and the companion's name.
  */
  function ExportObject(s: PlayerStats, companion: string): (r: JsonObject)
    ensures r.Keys == ExportKeys
  {
    map[
      "luck" := JInt(s.luck), "mind" := JInt(s.mind), "power" := JInt(s.power),
      "hp" := JInt(s.hp), "cards" := JInt(s.cards), "level" := JInt(s.level),
      "inventory" := JString(Join(s.inventory, ',')), "companion" := JString(companion)]
  }

  /** The fixed object `getPlayerStats` returns when reading the store throws. */
  const FallbackObject: JsonObject := map[
    "luck" := JInt(3), "mind" := JInt(3), "power" := JInt(3),
    "hp" := JInt(100), "cards" := JInt(0), "level" := JInt(1),
    "inventory" := JString(""), "companion" := JString("")]

  /** The fallback is the export of the default record with no companion. */
  lemma FallbackIsDefaultExport()
    ensures FallbackObject == ExportObject(DefaultStats, "")
  {
  }

  /**
    What `getPlayerStats` exports from a store it could read: the six stored
    numbers (or their defaults) under their own names, and the stored
    companion name, which is the enum name of the selected companion.
  */
  lemma ExportCarriesRecord(p: Store, s: PlayerStats)
    requires LoadStats(p).Ok? && Lists(s, LoadStats(p).value)
    requires GameData.GetCurrentCompanionName(p).Ok?
    ensures var v := LoadStats(p).value;
      var o := ExportObject(s, GameData.GetCurrentCompanionName(p).value);
      && o["luck"] == JInt(v.luck) && o["mind"] == JInt(v.mind) && o["power"] == JInt(v.power)
      && o["hp"] == JInt(v.hp) && o["cards"] == JInt(v.cards) && o["level"] == JInt(v.level)
    ensures var o := ExportObject(s, GameData.GetCurrentCompanionName(p).value);
      o["companion"] == JString(if GameData.SelectedKey in p then p[GameData.SelectedKey].s else "")
    ensures forall c :: GameData.GetSelectedCharacter(p) == Ok(Some(c)) ==>
      ExportObject(s, GameData.GetCurrentCompanionName(p).value)["companion"] == JString(Companions.Name(c))
  {
  }

  /**
    A non-empty exported inventory splits back into the items exactly when
    no item holds a comma; an empty inventory exports as "".
  */
  lemma ExportedInventorySplits(s: PlayerStats, companion: string)
    ensures s.inventory != [] ==>
      (Split(ExportObject(s, companion)["inventory"].s, ',') == s.inventory
       <==> forall i :: 0 <= i < |s.inventory| ==> ',' !in s.inventory[i])
    ensures s.inventory == [] ==> ExportObject(s, companion)["inventory"] == JString("")
  {
    if s.inventory != [] {
      if forall i :: 0 <= i < |s.inventory| ==> ',' !in s.inventory[i] {
        SplitJoin(s.inventory, ',');
      }
      if Split(Join(s.inventory, ','), ',') == s.inventory {
        SplitJoinOnlyIf(s.inventory, ',');
      }
    }
  }

  const SceneKey := "current_scene"
  const PlayerDataKey := "player_data"

  /** `loadGameProgress()`: the stored scene and page data, defaulting to "intro" and "{}". */
  function LoadProgress(p: Store): (r: Read<JsonObject>)
    ensures r.ClassCast? <==>
      (SceneKey in p && !p[SceneKey].StringValue?) || (PlayerDataKey in p && !p[PlayerDataKey].StringValue?)
    ensures r.Ok? ==> r.value.Keys == {"scene", "player"}
    ensures r.Ok? ==> r.value["scene"] == JString(if SceneKey in p then p[SceneKey].s else "intro")
    ensures r.Ok? ==> r.value["player"] == JString(if PlayerDataKey in p then p[PlayerDataKey].s else "{}")
  {
    var scene := GetString(p, SceneKey);
    var player := GetString(p, PlayerDataKey);
    if scene.ClassCast? || player.ClassCast? then ClassCast
    else
      Ok(map[
        "scene" := JString(if scene.value.Some? then scene.value.value else "intro"),
        "player" := JString(if player.value.Some? then player.value.value else "{}")])
  }

  /** `saveGameProgress(sceneId, playerData)` */
  function ProgressSaved(p: Store, sceneId: string, playerData: string): (r: Store)
    ensures r.Keys == p.Keys + {SceneKey, PlayerDataKey}
    ensures r[SceneKey] == StringValue(sceneId) && r[PlayerDataKey] == StringValue(playerData)
    ensures forall k :: k in p && k != SceneKey && k != PlayerDataKey ==> r[k] == p[k]
  {
    p[SceneKey := StringValue(sceneId)][PlayerDataKey := StringValue(playerData)]
  }

  class WebAppInterface {
    /** The `game_data` store. */
    const gameData: GameData.GameData
    /** The `game_progress` namespace. */
    var progress: Store

    constructor (gameData: GameData.GameData, progress: Store)
      ensures this.gameData == gameData && this.progress == progress
    {
      this.gameData := gameData;
      this.progress := progress;
    }

    /**
      `updatePlayerStats(...)`: nothing before the save can throw, so all
      seven fields are always stored, the inventory as the set of parsed items.
    */
    method UpdatePlayerStats(luck: int, mind: int, power: int, hp: int, cards: int, level: int,
                             inventoryJson: string)
      modifies gameData
      ensures gameData.prefs == StoreStats(old(gameData.prefs),
        SavedStats(luck, mind, power, hp, cards, level, Elements(ParseInventory(inventoryJson))))
    {
      var inventory := ParseInventory(inventoryJson);
      var stats := PlayerStats(luck, mind, power, hp, cards, level, inventory);
      gameData.SavePlayerStats(stats);
    }

    /** `getPlayerStats()`: the export, or the fixed fallback when a read throws. */
    method GetPlayerStats() returns (obj: JsonObject)
      ensures LoadStats(gameData.prefs).ClassCast? || GameData.GetCurrentCompanionName(gameData.prefs).ClassCast?
        ==> obj == FallbackObject
      ensures LoadStats(gameData.prefs).Ok? && GameData.GetCurrentCompanionName(gameData.prefs).Ok? ==>
        exists s :: Lists(s, LoadStats(gameData.prefs).value)
          && obj == ExportObject(s, GameData.GetCurrentCompanionName(gameData.prefs).value)
    {
      var stats := gameData.GetPlayerStats();
      var companion := GameData.GetCurrentCompanionName(gameData.prefs);
      if stats.ClassCast? || companion.ClassCast? {
        return FallbackObject;
      }
      obj := ExportObject(stats.value, companion.value);
    }

    /** `syncStatsToJS()`: the same export without the fallback, so a failed read propagates. */
    method SyncStatsToJS() returns (r: Read<JsonObject>)
      ensures r.ClassCast? <==>
        LoadStats(gameData.prefs).ClassCast? || GameData.GetCurrentCompanionName(gameData.prefs).ClassCast?
      ensures r.Ok? ==>
        exists s :: Lists(s, LoadStats(gameData.prefs).value)
          && r.value == ExportObject(s, GameData.GetCurrentCompanionName(gameData.prefs).value)
    {
      var stats := gameData.GetPlayerStats();
      if stats.ClassCast? {
        return ClassCast;
      }
      var companion := GameData.GetCurrentCompanionName(gameData.prefs);
      if companion.ClassCast? {
        return ClassCast;
      }
      r := Ok(ExportObject(stats.value, companion.value));
    }

    /** `addToInventory(item)` */
    method AddToInventory(item: string) returns (r: Read<()>)
      modifies gameData
      ensures r.ClassCast? <==> LoadStats(old(gameData.prefs)).ClassCast?
      ensures gameData.prefs == GameData.ItemAdded(old(gameData.prefs), item)
    {
      r := gameData.AddToInventory(item);
    }

    /** `getCurrentCompanion()` */
    method GetCurrentCompanion() returns (r: Read<string>)
      ensures r == GameData.GetCurrentCompanionName(gameData.prefs)
    {
      r := GameData.GetCurrentCompanionName(gameData.prefs);
    }

    /** `saveGameProgress(sceneId, playerData)` */
    method SaveGameProgress(sceneId: string, playerData: string)
      modifies this
      ensures progress == ProgressSaved(old(progress), sceneId, playerData)
    {
      progress := progress[SceneKey := StringValue(sceneId)];
      progress := progress[PlayerDataKey := StringValue(playerData)];
    }

    /** `loadGameProgress()` */
    method LoadGameProgress() returns (r: Read<JsonObject>)
      ensures r == LoadProgress(progress)
    {
      r := LoadProgress(progress);
    }

    /** `resetGame()`: clears both namespaces. */
    method ResetGame()
      modifies this, gameData
      ensures gameData.prefs == map[] && progress == map[]
    {
      gameData.ResetGameData();
      progress := map[];
    }
  }

  /** The page's progress round-trips; an empty namespace reads as "intro" and "{}". */
  lemma ProgressRoundTrip(p: Store, sceneId: string, playerData: string)
    ensures LoadProgress(ProgressSaved(p, sceneId, playerData))
      == Ok(map["scene" := JString(sceneId), "player" := JString(playerData)])
    ensures LoadProgress(map[]) == Ok(map["scene" := JString("intro"), "player" := JString("{}")])
  {
  }

  /**
    After `updatePlayerStats` every read of the record gives the seven values
    passed in, the inventory as the set of parsed items; an empty inventory
    string stores an empty inventory.
  */
  lemma UpdateThenLoad(p: Store, luck: int, mind: int, power: int, hp: int, cards: int, level: int,
                       inventoryJson: string)
    ensures var v := SavedStats(luck, mind, power, hp, cards, level, Elements(ParseInventory(inventoryJson)));
      LoadStats(StoreStats(p, v)) == Ok(v)
    ensures inventoryJson == "" ==>
      LoadStats(StoreStats(p, SavedStats(luck, mind, power, hp, cards, level, Elements(ParseInventory(inventoryJson)))))
        == Ok(SavedStats(luck, mind, power, hp, cards, level, {}))
  {
    LoadAfterStore(p, SavedStats(luck, mind, power, hp, cards, level, Elements(ParseInventory(inventoryJson))));
    if inventoryJson == "" {
      ParseEmptyInventory();
      assert Elements([]) == {};
    }
  }

  /** After `resetGame` the record, the companion and the page's progress all read as their defaults. */
  lemma ResetGameReadsDefaults(now: int)
    ensures LoadStats(map[]) == Ok(Image(DefaultStats))
    ensures GameData.GetCurrentCompanionName(map[]) == Ok("")
    ensures GameData.GetCooldownUntil(map[], now) == Ok(now - GameData.CooldownFallbackMillis)
    ensures LoadProgress(map[]) == Ok(map["scene" := JString("intro"), "player" := JString("{}")])
  {
    GameData.ResetReadsDefaults(now);
  }
}
