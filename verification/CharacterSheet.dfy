/**
  The character screen of CharacterSheetActivity.kt: the companion
  checkboxes, the cooldown gate in front of them, and the countdown shown
  while the cooldown runs. Time is epoch milliseconds passed in by the caller.
*/
module CharacterSheet {
  import opened Options
  import opened Prefs
  import opened Stats
  import opened Companions
  import GameData

  /** `now.plus(10, ChronoUnit.MINUTES)` */
  const CooldownMillis := 10 * 60 * 1000

  /** The flat bonus a companion adds to its stat. */
  const CompanionBonus := 3

  /** The item the inventory card counts. */
  const HealthPotion := "Зелье здоровья"

  /** The stat each companion strengthens: Mage the mind, Archer the luck, Warrior the power. */
  function Bound(s: PlayerStats, c: Companion): int {
    match c
    case Mage => s.mind
    case Archer => s.luck
    case Warrior => s.power
  }

  /** `s` with the stat bound to `c` set to `v` and every other field kept. */
  function WithBound(s: PlayerStats, c: Companion, v: int): (r: PlayerStats)
    ensures Bound(r, c) == v
    ensures forall d :: d != c ==> Bound(r, d) == Bound(s, d)
    ensures r.hp == s.hp && r.cards == s.cards && r.level == s.level && r.inventory == s.inventory
  {
    match c
    case Mage => s.(mind := v)
    case Archer => s.(luck := v)
    case Warrior => s.(power := v)
  }

  function Max(a: int, b: int): int {
    if a >= b then a else b
  }

  /** The screen's remembered state: the stats shown, the ticked companion, the end of cooldown. */
  datatype Sheet = Sheet(stats: PlayerStats, selected: Option<Companion>, cooldownUntil: int)

  /** `cooldownUntil.isAfter(now)` */
  predicate OnCooldown(cooldownUntil: int, now: int) {
    cooldownUntil > now
  }

  /** `canSelect`: a checkbox takes input when it is the ticked one or the cooldown has run out. */
  predicate CanSelect(selected: bool, cooldownUntil: int, now: int) {
    selected || !OnCooldown(cooldownUntil, now)
  }

  /**
    What the `onSelected` handler of companion `c` does to the screen state;
    `None` is its early return, which changes and saves nothing.
  */
  function Handle(sh: Sheet, c: Companion, isChecked: bool, now: int): (r: Option<Sheet>)
    ensures r.Some? <==> !isChecked || (sh.selected.None? && !OnCooldown(sh.cooldownUntil, now))
    ensures r.Some? ==> r.value.selected == (if isChecked then Some(c) else None)
    ensures r.Some? ==> r.value.cooldownUntil == (if isChecked then now + CooldownMillis else sh.cooldownUntil)
    ensures r.Some? ==> forall d :: d != c ==> Bound(r.value.stats, d) == Bound(sh.stats, d)
  {
    if isChecked then
      if sh.selected.Some? || OnCooldown(sh.cooldownUntil, now) then None
      else Some(Sheet(WithBound(sh.stats, c, Bound(sh.stats, c) + CompanionBonus), Some(c), now + CooldownMillis))
    else
      Some(Sheet(WithBound(sh.stats, c, Max(Bound(sh.stats, c) - CompanionBonus, 0)), None, sh.cooldownUntil))
  }

  /**
    A tap on the checkbox of `c`: a disabled checkbox (no `onCheckedChange`)
    ignores it; an enabled one calls the handler with the negation of its
    ticked state.
  */
  function Tap(sh: Sheet, c: Companion, now: int): (r: Option<Sheet>)
    ensures r.Some? <==> sh.selected == Some(c) || (sh.selected.None? && !OnCooldown(sh.cooldownUntil, now))
    ensures r.Some? ==> r.value.selected == (if sh.selected == Some(c) then None else Some(c))
  {
    var ticked := sh.selected == Some(c);
    if CanSelect(ticked, sh.cooldownUntil, now) then Handle(sh, c, !ticked, now) else None
  }

  /** The three writes that end an accepted handler: stats, selection, end of cooldown. */
  function Commit(p: Store, sh: Sheet): Store {
    GameData.WithCooldown(GameData.WithSelected(StoreStats(p, Image(sh.stats)), sh.selected), sh.cooldownUntil)
  }

  class CharacterSheetScreen {
    const gameData: GameData.GameData
    var playerStats: PlayerStats
    var selectedCharacter: Option<Companion>
    var cooldownUntil: int

    function State(): Sheet
      reads this
    {
      Sheet(playerStats, selectedCharacter, cooldownUntil)
    }

    constructor (gameData: GameData.GameData, initialPlayerStats: PlayerStats,
                 selectedCharacter: Option<Companion>, cooldownUntil: int)
      ensures this.gameData == gameData
      ensures State() == Sheet(initialPlayerStats, selectedCharacter, cooldownUntil)
    {
      this.gameData := gameData;
      this.playerStats := initialPlayerStats;
      this.selectedCharacter := selectedCharacter;
      this.cooldownUntil := cooldownUntil;
    }

    /** The `onSelected` handler of the checkbox of `c`. */
    method OnSelected(c: Companion, isChecked: bool, now: int)
      modifies this, gameData
      ensures Handle(old(State()), c, isChecked, now).None? ==>
        State() == old(State()) && gameData.prefs == old(gameData.prefs)
      ensures Handle(old(State()), c, isChecked, now).Some? ==>
        State() == Handle(old(State()), c, isChecked, now).value
        && gameData.prefs == Commit(old(gameData.prefs), State())
    {
      if isChecked {
        if selectedCharacter.Some? || cooldownUntil > now {
          return;
        }
        playerStats := WithBound(playerStats, c, Bound(playerStats, c) + CompanionBonus);
        selectedCharacter := Some(c);
        cooldownUntil := now + CooldownMillis;
      } else {
        playerStats := WithBound(playerStats, c, Max(Bound(playerStats, c) - CompanionBonus, 0));
        selectedCharacter := None;
      }
      gameData.SavePlayerStats(playerStats);
      gameData.SetSelectedCharacter(selectedCharacter);
      gameData.SetCooldownUntil(cooldownUntil);
    }

    /**
      A tap on the checkbox of `c`, through the `canSelect` gate. `now` is the
      clock reading taken when the screen last composed, which the gate and
      the handler share.
    */
    method OnTap(c: Companion, now: int)
      modifies this, gameData
      ensures Tap(old(State()), c, now).None? ==>
        State() == old(State()) && gameData.prefs == old(gameData.prefs)
      ensures Tap(old(State()), c, now).Some? ==>
        State() == Tap(old(State()), c, now).value
        && gameData.prefs == Commit(old(gameData.prefs), State())
    {
      var ticked := selectedCharacter == Some(c);
      var canSelect := ticked || !(cooldownUntil > now);
      if canSelect {
        OnSelected(c, !ticked, now);
      }
    }
  }

  /**
    Opening the screen at `now`: the stats read when the activity starts, then
    the stored selection and end of cooldown; a wrong-typed entry in any of
    these reads throws.
  */
  method Open(gameData: GameData.GameData, now: int) returns (r: Read<CharacterSheetScreen>)
    ensures r.ClassCast? <==>
      LoadStats(gameData.prefs).ClassCast? || GameData.GetSelectedCharacter(gameData.prefs).ClassCast?
      || GameData.GetCooldownUntil(gameData.prefs, now).ClassCast?
    ensures r.Ok? ==>
      fresh(r.value) && r.value.gameData == gameData
      && Lists(r.value.playerStats, LoadStats(gameData.prefs).value)
      && r.value.selectedCharacter == GameData.GetSelectedCharacter(gameData.prefs).value
      && r.value.cooldownUntil == GameData.GetCooldownUntil(gameData.prefs, now).value
  {
    var stats := gameData.GetPlayerStats();
    var selected := GameData.GetSelectedCharacter(gameData.prefs);
    var cooldown := GameData.GetCooldownUntil(gameData.prefs, now);
    if stats.ClassCast? || selected.ClassCast? || cooldown.ClassCast? {
      return ClassCast;
    }
    var screen := new CharacterSheetScreen(gameData, stats.value, selected.value, cooldown.value);
    r := Ok(screen);
  }

  /**
    A select is accepted exactly when no companion is ticked and the cooldown
    has run out; it adds exactly the bonus to the bound stat, leaves the rest
    of the record alone, ticks `c` and starts a ten-minute cooldown.
  */
  lemma SelectRule(sh: Sheet, c: Companion, now: int)
    ensures Handle(sh, c, true, now).Some? <==> sh.selected == None && sh.cooldownUntil <= now
    ensures Handle(sh, c, true, now).Some? ==>
      var s := Handle(sh, c, true, now).value;
      && Bound(s.stats, c) == Bound(sh.stats, c) + 3
      && (forall d :: d != c ==> Bound(s.stats, d) == Bound(sh.stats, d))
      && s.stats.hp == sh.stats.hp && s.stats.cards == sh.stats.cards
      && s.stats.level == sh.stats.level && s.stats.inventory == sh.stats.inventory
      && s.selected == Some(c) && s.cooldownUntil == now + 600_000
  {
  }

  /**
    A deselect always goes through: the bound stat drops by the bonus but not
    below zero, nothing stays ticked and the end of cooldown is kept.
  */
  lemma DeselectRule(sh: Sheet, c: Companion, now: int)
    ensures Handle(sh, c, false, now).Some?
    ensures var s := Handle(sh, c, false, now).value;
      && Bound(s.stats, c) == (if Bound(sh.stats, c) >= 3 then Bound(sh.stats, c) - 3 else 0)
      && Bound(s.stats, c) >= 0
      && (forall d :: d != c ==> Bound(s.stats, d) == Bound(sh.stats, d))
      && s.selected == None && s.cooldownUntil == sh.cooldownUntil
  {
  }

  /**
    Selecting and then deselecting the same companion gives its stat back
    exactly when the stat started non-negative; the other stats never move.
  */
  lemma SelectThenDeselect(sh: Sheet, c: Companion, t1: int, t2: int)
    requires Handle(sh, c, true, t1).Some?
    ensures var s := Handle(Handle(sh, c, true, t1).value, c, false, t2).value;
      && (Bound(s.stats, c) == Bound(sh.stats, c) <==> Bound(sh.stats, c) >= 0)
      && (forall d :: d != c ==> Bound(s.stats, d) == Bound(sh.stats, d))
      && s.selected == None && s.cooldownUntil == t1 + CooldownMillis
  {
  }

  predicate NonNegative(s: PlayerStats) {
    s.luck >= 0 && s.mind >= 0 && s.power >= 0
  }

  /** Neither handler makes luck, mind or power negative. */
  lemma HandleKeepsNonNegative(sh: Sheet, c: Companion, isChecked: bool, now: int)
    requires NonNegative(sh.stats)
    ensures Handle(sh, c, isChecked, now).Some? ==> NonNegative(Handle(sh, c, isChecked, now).value.stats)
  {
  }

  /**
    The gate and the handler together: with nothing ticked a tap selects
    exactly when the cooldown has run out; a tap on the ticked companion
    always deselects it; a tap on another companion while one is ticked does
    nothing, even when the gate lets it through.
  */
  lemma TapRule(sh: Sheet, c: Companion, now: int)
    ensures sh.selected == None ==>
      (Tap(sh, c, now).Some? <==> !OnCooldown(sh.cooldownUntil, now))
      && (Tap(sh, c, now).Some? ==> Tap(sh, c, now) == Handle(sh, c, true, now))
    ensures sh.selected == Some(c) ==> Tap(sh, c, now) == Handle(sh, c, false, now)
    ensures sh.selected.Some? && sh.selected != Some(c) ==> Tap(sh, c, now).None?
    ensures sh.selected.Some? && sh.selected != Some(c) && !OnCooldown(sh.cooldownUntil, now) ==>
      CanSelect(false, sh.cooldownUntil, now)
  {
  }

  /** One tap of a given checkbox at a given time. */
  datatype Click = Click(companion: Companion, now: int)

  /** The screen state after a sequence of taps; an ignored tap leaves it as it was. */
  function Run(sh: Sheet, clicks: seq<Click>): Sheet
    decreases |clicks|
  {
    if clicks == [] then sh
    else
      var next := Tap(sh, clicks[0].companion, clicks[0].now);
      Run(if next.Some? then next.value else sh, clicks[1..])
  }

  /** `base` with the bonus of the ticked companion, if any, on top. */
  function WithBonus(base: PlayerStats, selected: Option<Companion>): PlayerStats {
    match selected
    case None => base
    case Some(c) => WithBound(base, c, Bound(base, c) + CompanionBonus)
  }

  /** The shown stats are a non-negative base plus the bonus of at most one companion. */
  predicate Carries(sh: Sheet, base: PlayerStats) {
    NonNegative(base) && sh.stats == WithBonus(base, sh.selected)
  }

  lemma TapKeepsBonus(sh: Sheet, base: PlayerStats, c: Companion, now: int)
    requires Carries(sh, base)
    ensures Tap(sh, c, now).Some? ==> Carries(Tap(sh, c, now).value, base)
  {
  }

  /**
    At most one companion is ever in effect: from a state that carries a
    non-negative base, every sequence of taps ends in a state whose stats are
    that same base plus the bonus of the one companion then ticked, if any.
  */
  lemma {:induction false} RunKeepsOneBonus(sh: Sheet, base: PlayerStats, clicks: seq<Click>)
    requires Carries(sh, base)
    ensures Carries(Run(sh, clicks), base)
    decreases |clicks|
  {
    if clicks != [] {
      TapKeepsBonus(sh, base, clicks[0].companion, clicks[0].now);
      var next := Tap(sh, clicks[0].companion, clicks[0].now);
      RunKeepsOneBonus(if next.Some? then next.value else sh, base, clicks[1..]);
    }
  }

  /**
    Deselecting does not shorten the cooldown: as long as every tap comes
    before the end of cooldown, no companion gets selected, so the selection
    can only stay or be cleared and the end of cooldown never moves.
  */
  lemma {:induction false} NoSelectionBeforeExpiry(sh: Sheet, clicks: seq<Click>)
    requires forall i :: 0 <= i < |clicks| ==> clicks[i].now < sh.cooldownUntil
    ensures Run(sh, clicks).cooldownUntil == sh.cooldownUntil
    ensures Run(sh, clicks).selected == sh.selected || Run(sh, clicks).selected == None
    decreases |clicks|
  {
    if clicks != [] {
      var next := Tap(sh, clicks[0].companion, clicks[0].now);
      var sh' := if next.Some? then next.value else sh;
      assert sh'.cooldownUntil == sh.cooldownUntil;
      assert sh'.selected == sh.selected || sh'.selected == None;
      assert forall i :: 0 <= i < |clicks[1..]| ==> clicks[1..][i].now < sh'.cooldownUntil by {
        forall i | 0 <= i < |clicks[1..]| ensures clicks[1..][i].now < sh'.cooldownUntil {
          assert clicks[1..][i] == clicks[i + 1];
        }
      }
      NoSelectionBeforeExpiry(sh', clicks[1..]);
    }
  }

  /**
    After an accepted handler the store reads back what the screen shows:
    the stats (inventory as a set), the ticked companion and, when it is
    positive, the end of cooldown.
  */
  lemma CommitReadsBack(p: Store, sh: Sheet, now: int)
    ensures LoadStats(Commit(p, sh)) == Ok(Image(sh.stats))
    ensures GameData.GetSelectedCharacter(Commit(p, sh)) == Ok(sh.selected)
    ensures sh.cooldownUntil > 0 ==> GameData.GetCooldownUntil(Commit(p, sh), now) == Ok(sh.cooldownUntil)
  {
    var q := StoreStats(p, Image(sh.stats));
    LoadAfterStore(p, Image(sh.stats));
    GameData.SelectedCharacterRoundTrip(q, sh.selected);
    assert LoadStats(GameData.WithSelected(q, sh.selected)) == Ok(Image(sh.stats));
  }

  /** `playerStats.inventory.count { it == "Зелье здоровья" }` */
  function PotionCount(s: PlayerStats): nat {
    Count(s.inventory, HealthPotion)
  }

  /**
    The potion counter can never show more than one: the inventory comes
    from a set, so every item occurs in it at most once, and the handlers
    never touch it.
  */
  lemma PotionCountAtMostOne(s: PlayerStats, v: SavedStats, sh: Sheet, c: Companion, now: int)
    requires Lists(s, v)
    requires sh.stats == s
    ensures PotionCount(s) == if HealthPotion in v.inventory then 1 else 0
    ensures Tap(sh, c, now).Some? ==> PotionCount(Tap(sh, c, now).value.stats) <= 1
  {
    CountWithoutDuplicates(s.inventory, HealthPotion);
  }

  /** The countdown shown while on cooldown. */
  datatype Countdown = Countdown(minutes: int, seconds: int)

  /** Java's `/` on longs: rounds toward zero. */
  function TruncDiv(a: int, b: int): int
    requires b > 0
  {
    if a >= 0 then a / b else -((-a) / b)
  }

  /**
    `formatCooldown(cooldownUntil)` read at clock time `now`: the whole seconds
    left (`Duration.getSeconds`, rounded down), split into `toMinutes()` and
    `seconds % 60` with Java's truncating division. The minutes and seconds
    always make up the whole seconds left; for a cooldown still running the
    seconds lie in 0..59, and for one that ran out they lie in -59..0.
  */
  function FormatCooldown(cooldownUntil: int, now: int): (r: Countdown)
    ensures r.minutes * 60 + r.seconds == (cooldownUntil - now) / 1000
    ensures cooldownUntil >= now ==> 0 <= r.seconds < 60 && r.minutes >= 0
    ensures cooldownUntil < now ==> -60 < r.seconds <= 0 && r.minutes <= 0
  {
    var secs := (cooldownUntil - now) / 1000;
    var minutes := TruncDiv(secs, 60);
    Countdown(minutes, secs - minutes * 60)
  }

  /**
    The sequence of taps from a fresh store opened at `t0`, each tap given
    the clock reading the screen last composed with: ticking the Mage lifts
    the mind to 6; the Archer is refused while the Mage is ticked; unticking
    the Mage gives the mind back but not the cooldown, so a tap on the Archer
    is still refused with a reading of `t0` + 5 min and accepted with one of
    `t0` + 11 min. The screen has no timer: the reading moves on only when
    something recomposes it.
  */
  lemma FreshStoreScenario(t0: int)
    ensures var sh0 := Sheet(DefaultStats, None, t0 - GameData.CooldownFallbackMillis);
      var s1 := Tap(sh0, Mage, t0);
      && s1 == Some(Sheet(DefaultStats.(mind := 6), Some(Mage), t0 + 600_000))
      && Tap(s1.value, Archer, t0 + 60_000).None?
      && var s2 := Tap(s1.value, Mage, t0 + 60_000);
      && s2 == Some(Sheet(DefaultStats, None, t0 + 600_000))
      && Tap(s2.value, Archer, t0 + 300_000).None?
      && Tap(s2.value, Archer, t0 + 660_000) == Some(Sheet(DefaultStats.(luck := 6), Some(Archer), t0 + 1_260_000))
  {
  }
}
