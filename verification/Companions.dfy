/** The three companions a player may take along, and their enum names. */
module Companions {
  import opened Options

  datatype Companion = Mage | Archer | Warrior

  /** The enum constant's `name`. */
  function Name(c: Companion): string {
    match c
    case Mage => "MAGE"
    case Archer => "ARCHER"
    case Warrior => "WARRIOR"
  }

  /**
    `CompanionCharacter.valueOf(name)`, with the IllegalArgumentException for
    an unknown name turned into `None`: the match is exact and case-sensitive.
  */
  function FromName(s: string): (r: Option<Companion>)
    ensures r.Some? <==> s in {"MAGE", "ARCHER", "WARRIOR"}
    ensures r.Some? ==> Name(r.value) == s
    ensures forall c :: s == Name(c) ==> r == Some(c)
  {
    if s == "MAGE" then Some(Mage)
    else if s == "ARCHER" then Some(Archer)
    else if s == "WARRIOR" then Some(Warrior)
    else None
  }
}
