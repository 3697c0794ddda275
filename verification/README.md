# Dungeons and Treasures: companion selection, stat store and page bridge

This project models the three small pieces of logic in a mobile game shell:

- **The character screen's companion checkboxes** (`CharacterSheetActivity.kt`).
  The screen remembers the stats it shows, the ticked companion (none, Mage,
  Archer or Warrior) and the instant the companion cooldown ends. Ticking a
  companion is accepted only when none is ticked and the cooldown has run out.
  It adds 3 to the companion's stat (Mage: mind, Archer: luck, Warrior: power)
  and starts a ten-minute cooldown. Unticking takes the 3 off again, but not
  below 0, and leaves the cooldown running. Every accepted change writes the
  stats, the selection and the end of cooldown to the store. A checkbox takes
  input only when it is ticked or the cooldown has run out, judged against the
  clock reading the screen took when it was last composed. The countdown text
  splits the remaining time into minutes and seconds.
- **The player stat store**, in both versions the repository holds
  (`GameData.kt` and `app/src/main/java/com/example/game/GameData.kt`). Each
  version is a class over one key/value namespace. Reads fall back to
  defaults: luck, mind and power 3, hp 100, cards 0, level 1. The inventory is
  stored as a set of strings. The top-level version also keeps the companion's
  enum name and the end of cooldown, which reads as ten minutes before `now`
  when it is missing or not positive. The `app/` version adds generic integer
  stats and an inventory that refuses duplicates and can remove items.
- **The bridge to the embedded game page** (`WebAppInterface.kt`). It parses
  the inventory the page sends and exports the stats with the companion's
  name as a flat object, with the inventory joined by commas. A fixed default
  object stands in when reading fails. It also stores and loads the page's
  progress, defaulting to `"intro"` and `"{}"`, and resets both namespaces.

The store is a synchronous in-memory map from key to typed value (`Prefs`).
A typed read of a key that holds a value of another type throws
ClassCastException on the platform. The model returns that case as
`ClassCast`. That failure is what sends the bridge's export to its fallback.
Time is an integer number of epoch milliseconds passed to every operation.

Files: `Options.dfy` (nullable values), `Prefs.dfy` (one namespace),
`Strings.dfy` (trim, split, join), `Companions.dfy` (the enum), `Stats.dfy`
(the record and its layout in the store, shared by both versions),
`GameData.dfy`, `AppGameData.dfy`, `CharacterSheet.dfy`, `WebAppInterface.dfy`.

Three details of the code shape the model:

- Ticking a companion while any companion is ticked, itself included, returns
  early and changes nothing (CharacterSheetActivity.kt:164).
- The untick branch does not check which companion is ticked. Only the
  checkbox gate makes sure that an untick reaches the ticked companion alone
  (`TapRule`).
- Nothing before `savePlayerStats` inside `updatePlayerStats`'s `try` can
  throw, so all seven fields are always stored (WebAppInterface.kt:28-31).

## Model

| member | source | states |
|---|---|---|
| `Companions.FromName` | GameData.kt:58-65 | `valueOf` gives a companion exactly for the three enum names, and the one whose name is the string; any other string gives null |
| `Strings.Strip` | WebAppInterface.kt:133 | `trim(chars)` leaves a string that is empty or starts and ends outside the trimmed characters, holding only characters of the input |
| `Strings.StripRemovesRuns` | WebAppInterface.kt:133 | `trim(chars)` keeps a middle of the input with only trimmed characters before and after it; since that middle starts and ends outside them, these are the longest such runs |
| `Strings.Split` | WebAppInterface.kt:133 | `split(",")` yields at least one piece, no piece holds the delimiter, and joining the pieces with it gives the input back |
| `Strings.SplitJoin` | WebAppInterface.kt:50 | splitting a comma-joined non-empty list gives it back when no item holds a comma |
| `Strings.SplitJoinOnlyIf` | WebAppInterface.kt:50 | splitting a comma-joined list gives it back only when the list is non-empty and no item holds a comma |
| `Strings.JoinLosesDelimiterItems` | WebAppInterface.kt:50 | the item `a,b` is exported as `a,b` and splits back into two items |
| `Stats.LoadStats` | GameData.kt:19-28 | the record read succeeds exactly when every stored number has the integer type and the inventory the string-set type; each number is the stored one or its default (3, 3, 3, 100, 0, 1), and the inventory is the stored set or empty |
| `Stats.StoreStats` | GameData.kt:31-41 | saving writes the seven stat keys and keeps every other entry |
| `Stats.LoadEmpty` | GameData.kt:19-28 | an empty store reads as luck 3, mind 3, power 3, hp 100, cards 0, level 1, no items |
| `Stats.LoadAfterStore` | GameData.kt:19-41 | reading after saving gives back the six numbers and the set of the saved inventory |
| `Stats.StoreIdempotent` | GameData.kt:31-41 | saving the same record twice is saving it once |
| `Stats.StoreWhatWasLoaded` | GameData.kt:19-41 | saving a record just read changes nothing a later read sees |
| `Stats.ListOf` | GameData.kt:27 | `set.toList()` lists every stored item exactly once, in an order the set chooses |
| `Stats.ReadStats` | GameData.kt:19-29 | the record read throws exactly when a stat entry has the wrong type; otherwise it holds the stored numbers (or defaults) and lists the stored set, each item once |
| `Stats.Count` | CharacterSheetActivity.kt:134 | `count { it == x }` is the number of occurrences of `x` in the list |
| `Stats.CountWithoutDuplicates` | CharacterSheetActivity.kt:134 | in a list without duplicates an item is counted once if present and zero times otherwise |
| `Stats.RemoveFirst` | app/src/main/java/com/example/game/GameData.kt:72 | `remove(x)` takes out one occurrence of `x` when there is one, and returns the list unchanged otherwise |
| `Stats.RemoveFirstAtFirst` | app/src/main/java/com/example/game/GameData.kt:72 | `remove(x)` deletes the first occurrence of `x`, the one with no `x` before it, and keeps the rest in order |
| `Stats.RemoveFirstElements` | app/src/main/java/com/example/game/GameData.kt:71-72 | removing the first occurrence from a duplicate-free list removes the item from its set |
| `GameData.GetCurrentCompanionName` | GameData.kt:55-56 | the companion name reads as "" exactly when none (or "") is stored, and throws only on a non-string entry |
| `GameData.GetSelectedCharacter` | GameData.kt:58-65 | gives companion `c` exactly when `c`'s enum name is stored, throws only on a non-string entry, null otherwise |
| `GameData.GetCooldownUntil` | GameData.kt:81-84 | a stored positive instant is read as itself; a missing or non-positive one reads as ten minutes before `now`; a non-long entry throws |
| `GameData.ItemAdded` | GameData.kt:44-48 | when the record read throws the store is unchanged; otherwise only the inventory key is written |
| `GameData.GameData.constructor` | GameData.kt:16-17 | the store starts with the namespace's current content |
| `GameData.GameData.GetPlayerStats` | GameData.kt:19-29 | throws exactly when a stat entry has the wrong type; otherwise returns the six stored numbers (or defaults) and lists the stored set |
| `GameData.GameData.SavePlayerStats` | GameData.kt:31-41 | the new store is the old one with the seven stat keys written; a well-typed store stays well-typed |
| `GameData.GameData.AddToInventory` | GameData.kt:44-48 | throws, changing nothing, when the record read throws; otherwise rewrites only the inventory key, with the stored set plus the item |
| `GameData.GameData.SetInventory` | GameData.kt:50-52 | writes only the inventory key, with the list's set |
| `GameData.GameData.SetSelectedCharacter` | GameData.kt:67-72 | writes the companion's enum name, or removes the key for null |
| `GameData.GameData.SetCooldownUntil` | GameData.kt:74-79 | writes only the cooldown key, with the instant's milliseconds |
| `GameData.GameData.ResetGameData` | GameData.kt:87-89 | empties the namespace |
| `GameData.WellTypedReadsSucceed` | GameData.kt:19-84 | a store written only through this class never makes a read throw |
| `GameData.AddToInventoryUnion` | GameData.kt:44-48 | adding leaves the stored set equal to the old set plus the item and every other entry untouched; adding twice equals adding once |
| `GameData.SelectedCharacterRoundTrip` | GameData.kt:55-72 | a stored companion, or null, reads back as itself; with none stored the companion name is "" |
| `GameData.CooldownRoundTrip` | GameData.kt:74-84 | a positive end of cooldown reads back to the millisecond; a non-positive or missing one reads as ten minutes before `now` |
| `GameData.ResetReadsDefaults` | GameData.kt:87-89 | after a reset the record, the companion and the companion name read as their defaults, and nothing is on cooldown |
| `AppGameData.GetStat` | app/src/main/java/com/example/game/GameData.kt:56-57 | a missing key reads as the caller's default (0 when none is given), an integer entry as itself, any other entry throws |
| `AppGameData.WithStat` | app/src/main/java/com/example/game/GameData.kt:49-54 | `updateStat` writes the integer under the key and keeps every other entry |
| `AppGameData.ItemAdded` | app/src/main/java/com/example/game/GameData.kt:60-67 | no change when the read throws or the item is held; otherwise the seven stat keys are written and every other entry is kept |
| `AppGameData.ItemRemoved` | app/src/main/java/com/example/game/GameData.kt:69-74 | no change when the read throws; otherwise the seven stat keys are written, even for an item that is not held, and every other entry is kept |
| `AppGameData.GameData.constructor` | app/src/main/java/com/example/game/GameData.kt:16-18 | the store starts with the namespace's current content |
| `AppGameData.GameData.GetPlayerStats` | app/src/main/java/com/example/game/GameData.kt:20-30 | throws exactly when a stat entry has the wrong type; otherwise returns the stored numbers (or defaults) and lists the stored set |
| `AppGameData.GameData.SavePlayerStats` | app/src/main/java/com/example/game/GameData.kt:32-43 | the new store is the old one with the seven stat keys written |
| `AppGameData.GameData.ResetGameData` | app/src/main/java/com/example/game/GameData.kt:45-47 | empties the namespace |
| `AppGameData.GameData.UpdateStat` | app/src/main/java/com/example/game/GameData.kt:49-54 | writes one integer entry under any key |
| `AppGameData.GameData.AddToInventory` | app/src/main/java/com/example/game/GameData.kt:60-67 | changes nothing when the read throws or the item is held; otherwise saves the whole record back with the item added |
| `AppGameData.GameData.RemoveFromInventory` | app/src/main/java/com/example/game/GameData.kt:69-74 | changes nothing when the read throws; otherwise saves the whole record back without the item |
| `AppGameData.StatRoundTrip` | app/src/main/java/com/example/game/GameData.kt:49-58 | a written stat reads back as written; a key never written reads as the caller's default |
| `AppGameData.UpdateStatOnInventoryKey` | app/src/main/java/com/example/game/GameData.kt:49-54 | an integer written under the inventory key makes every later record read throw |
| `AppGameData.AddToInventoryProperties` | app/src/main/java/com/example/game/GameData.kt:60-67 | adding yields the old set plus the item with the numbers unchanged, leaves the store as it was when the item is held, and is idempotent |
| `AppGameData.RemoveFromInventoryProperties` | app/src/main/java/com/example/game/GameData.kt:69-74 | removing yields the old set without the item with the numbers unchanged; removing an absent item leaves every read as it was |
| `AppGameData.ResetReadsDefaults` | app/src/main/java/com/example/game/GameData.kt:45-47 | after a reset the record reads as its defaults and every stat as the caller's default |
| `CharacterSheet.Handle` | CharacterSheetActivity.kt:162-221 | a handler goes through exactly when it unticks, or ticks with nothing ticked and the cooldown run out; it then ticks `c` (or nothing) and sets the end of cooldown to `now` + 10 min on a tick and keeps it on an untick; the other companions' stats never move |
| `CharacterSheet.Tap` | CharacterSheetActivity.kt:344-363 | a tap changes the screen exactly when it hits the ticked box, or hits a box with nothing ticked and the cooldown run out; the ticked box unticks and any other box becomes ticked |
| `CharacterSheet.WithBound` | CharacterSheetActivity.kt:165 | a handler's `copy` changes the companion's own stat and no other field |
| `CharacterSheet.CharacterSheetScreen.constructor` | CharacterSheetActivity.kt:58-61 | the screen starts from the stats, selection and end of cooldown it is given |
| `CharacterSheet.CharacterSheetScreen.OnSelected` | CharacterSheetActivity.kt:162-221 | a rejected select changes neither screen nor store; an accepted change moves the screen to the handler's result and writes stats, selection and end of cooldown |
| `CharacterSheet.CharacterSheetScreen.OnTap` | CharacterSheetActivity.kt:344-363 | a tap reaches the handler only through the `canSelect` gate, with the negation of the ticked state |
| `CharacterSheet.Open` | CharacterSheetActivity.kt:45-61 | opening throws exactly when one of the three reads throws; otherwise the screen lists the stored record and holds the stored selection and end of cooldown |
| `CharacterSheet.SelectRule` | CharacterSheetActivity.kt:163-167 | a select is accepted exactly when nothing is ticked and the cooldown has run out; it adds exactly 3 to the bound stat only, ticks the companion and sets the end of cooldown to `now` + 10 min |
| `CharacterSheet.DeselectRule` | CharacterSheetActivity.kt:168-171 | a deselect always goes through: the bound stat becomes max(old − 3, 0), the others stay, nothing is ticked and the end of cooldown is kept |
| `CharacterSheet.SelectThenDeselect` | CharacterSheetActivity.kt:165-169 | select then deselect restores the bound stat exactly when it started ≥ 0, never moves the other stats, and leaves the cooldown from the select |
| `CharacterSheet.HandleKeepsNonNegative` | CharacterSheetActivity.kt:165-169 | neither handler makes luck, mind or power negative |
| `CharacterSheet.TapRule` | CharacterSheetActivity.kt:344-363 | with nothing ticked a tap selects iff the cooldown has run out; a tap on the ticked box deselects; a tap on another box while one is ticked does nothing even though the gate lets it through |
| `CharacterSheet.TapKeepsBonus` | CharacterSheetActivity.kt:162-221 | a tap keeps the shown stats equal to a non-negative base plus the bonus of the ticked companion |
| `CharacterSheet.RunKeepsOneBonus` | CharacterSheetActivity.kt:162-221 | over any sequence of taps the stats stay the same base plus the bonus of at most one companion |
| `CharacterSheet.NoSelectionBeforeExpiry` | CharacterSheetActivity.kt:164-174 | while every tap comes before the end of cooldown, no companion gets selected and the end of cooldown never moves, deselects included |
| `CharacterSheet.CommitReadsBack` | CharacterSheetActivity.kt:172-174 | after an accepted change the store reads back the screen's stats (inventory as a set), selection and positive end of cooldown |
| `CharacterSheet.PotionCountAtMostOne` | CharacterSheetActivity.kt:134 | the potion counter shows 1 if a potion is stored and 0 otherwise, and never more than 1, because the inventory comes from a set |
| `CharacterSheet.FormatCooldown` | CharacterSheetActivity.kt:378-383 | minutes·60 + seconds is the whole seconds left; 0 ≤ seconds < 60 while the cooldown runs, −60 < seconds ≤ 0 after it ran out |
| `CharacterSheet.FreshStoreScenario` | CharacterSheetActivity.kt:162-221 | from a fresh store: Mage lifts mind to 6; Archer is refused while Mage is ticked; unticking restores mind but not the cooldown; Archer is refused at +5 min and accepted at +11 min |
| `WebAppInterface.CleanPieces` | WebAppInterface.kt:133 | every kept item is non-empty and starts and ends outside `"`, space and `,`; with comma-free pieces no item holds a comma |
| `WebAppInterface.ParseInventory` | WebAppInterface.kt:131-134 | blank input or `[]` gives no items; every item is non-empty, holds no comma and starts and ends outside `"`, space and `,` |
| `WebAppInterface.ParseEncodedInventory` | WebAppInterface.kt:133 | parsing `["a","b",…]` of non-empty, comma-free items without quote or space at their ends gives back exactly those items in order |
| `WebAppInterface.ParseEmptyInventory` | WebAppInterface.kt:132 | an empty inventory string parses to no items |
| `WebAppInterface.ExportObject` | WebAppInterface.kt:43-51 | the export has exactly the eight fields luck, mind, power, hp, cards, level, inventory and companion |
| `WebAppInterface.ExportCarriesRecord` | WebAppInterface.kt:42-51 | from a readable store the export holds the six stored numbers (or their defaults) under their own names, and the stored companion name, which is the selected companion's enum name |
| `WebAppInterface.FallbackIsDefaultExport` | WebAppInterface.kt:53-55 | the fixed fallback object equals the export of the default record with no companion |
| `WebAppInterface.ExportedInventorySplits` | WebAppInterface.kt:50 | a non-empty exported inventory splits back into the items exactly when no item holds a comma; an empty inventory exports as "" |
| `WebAppInterface.LoadProgress` | WebAppInterface.kt:82-89 | reading progress throws exactly when the scene or the page data is stored with a non-string type; otherwise it gives the stored scene (or "intro") and page data (or "{}") |
| `WebAppInterface.ProgressSaved` | WebAppInterface.kt:71-80 | saving writes the scene and page data and keeps every other entry |
| `WebAppInterface.WebAppInterface.constructor` | WebAppInterface.kt:10-15 | the bridge works on the given store and progress namespace |
| `WebAppInterface.WebAppInterface.UpdatePlayerStats` | WebAppInterface.kt:17-37 | always stores all seven fields, the inventory as the set of parsed items |
| `WebAppInterface.WebAppInterface.GetPlayerStats` | WebAppInterface.kt:39-56 | returns the fallback exactly when a read throws; otherwise the export of a listing of the stored record with the stored companion name |
| `WebAppInterface.WebAppInterface.SyncStatsToJS` | WebAppInterface.kt:111-125 | the same export, throwing instead of falling back |
| `WebAppInterface.WebAppInterface.AddToInventory` | WebAppInterface.kt:58-64 | the store's add-to-inventory, with its failure |
| `WebAppInterface.WebAppInterface.GetCurrentCompanion` | WebAppInterface.kt:66-69 | the stored companion name, "" when none |
| `WebAppInterface.WebAppInterface.SaveGameProgress` | WebAppInterface.kt:71-80 | writes the scene and the page data, nothing else |
| `WebAppInterface.WebAppInterface.LoadGameProgress` | WebAppInterface.kt:82-89 | reads the scene and the page data with their defaults |
| `WebAppInterface.WebAppInterface.ResetGame` | WebAppInterface.kt:91-100 | empties both the `game_data` and the `game_progress` namespaces |
| `WebAppInterface.ProgressRoundTrip` | WebAppInterface.kt:71-89 | saved progress loads back as saved; an empty namespace loads as scene "intro" and player "{}" |
| `WebAppInterface.UpdateThenLoad` | WebAppInterface.kt:17-37 | after an update every record read gives the seven values passed in; an empty inventory string stores no items |
| `WebAppInterface.ResetGameReadsDefaults` | WebAppInterface.kt:91-100 | after a reset the record, the companion, the cooldown and the progress all read as their defaults |

## Left out

- Screen layout, theming, images, text and navigation in every activity, including all of `app/src/main/java/com/example/game/CharacterSheetActivity.kt`, `GameplayActivity.kt`, its `app/` twin and `MainActivity.kt`: presentation and navigation over the GUI toolkit and the embedded browser.
- The bridge's hand-off to the main thread (`Handler.post`), its toasts, `goBackToMainMenu` and the `onStatsChanged` callback: threading and UI code. Every bridge call is modelled as running to completion at once. A throw inside a posted block, which on the platform escapes on the main thread and ends the app, is returned to the caller as `ClassCast` instead (`AddToInventory`). It can arise only from a store that is not well-typed (`GameData.WellTypedReadsSucceed`).
- The platform's asynchronous `apply()` and the storage medium: each namespace is a synchronous in-memory map.
- The text of a JSON object (`toString()` and its escaping): objects are field/value maps.
- The wall clock: `now` is a parameter. `formatCooldown` reads the clock again, which is its own `now` parameter. Instants have millisecond resolution.
- CharacterSheet.CharacterSheetScreen.OnTap: the `now` given to `OnTap` and `OnSelected` is the clock reading the screen took when it was last composed (CharacterSheetActivity.kt:62). The screen has no timer, so that reading does not move on by itself. A box disabled by the cooldown stays disabled after the cooldown ends, until something else recomposes the screen. The model does not say when recomposition happens. Each tap is given whatever reading the caller chooses.
- The countdown text: `FormatCooldown` returns the minutes and seconds, not the formatted string.
- The order of `set.toList()`: any order the set chooses. `ListOf` picks elements one by one.
- The numbers the page passes are taken as integers. Their conversion from JavaScript values is the browser bridge's job.
- CharacterSheet.CharacterSheetScreen.OnSelected: does not model 32-bit `Int` wrap-around of a stat + 3, nor 64-bit wrap-around of `now` + 10 min. Epoch milliseconds stay far from the 64-bit bound, but stats do not: `updatePlayerStats` stores any 32-bit value the page passes. With luck at 2147483647, ticking the Archer wraps luck to −2147483646 on the platform. So CharacterSheet.HandleKeepsNonNegative and CharacterSheet.RunKeepsOneBonus hold for the model's unbounded integers, and on the platform only while stats stay at least 3 below the `Int` maximum.
- Stats.StoreStats: integers are unbounded, while the platform stores 32-bit `Int` and 64-bit `Long` values.
