/**
 The season-to-event-flag map of source/program/config.cpp. Event flags are the switches of `[events]`
 but `Active`.
 */
module SeasonEvents {
  import opened Options
  import opened Spelling
  import opened ConfigLayouts

  type Flags = set<EventsField>

  const NOT_FLAGS: Flags := {EventsField.Active, SeasonMapMode}

  /** Flags that are on in every map before the season's own flags are added. */
  const MAP_DEFAULTS: Flags := {DarkAlchemy}

  /** The flags a season stands for, if it stands for any. */
  function BuildSeasonEventMap(season: int): Option<Flags> {
    match season
    case 14 => Some(MAP_DEFAULTS + {DoubleTreasureGoblins})
    case 15 => Some(MAP_DEFAULTS + {DoubleBountyBags})
    case 16 => Some(MAP_DEFAULTS + {RoyalGrandeur})
    case 17 => Some(MAP_DEFAULTS + {LegacyOfNightmares})
    case 18 => Some(MAP_DEFAULTS + {TriunesWill})
    case 19 => Some(MAP_DEFAULTS + {Pandemonium})
    case 20 => Some(MAP_DEFAULTS + {KanaiPowers})
    case 21 => Some(MAP_DEFAULTS + {TrialsOfTempests})
    case 22 => Some(MAP_DEFAULTS + {ShadowClones, FourthKanaisCubeSlot})
    case 24 => Some(MAP_DEFAULTS + {EtherealItems})
    case 25 => Some(MAP_DEFAULTS + {SoulShards})
    case 26 => Some(MAP_DEFAULTS + {SwarmRifts})
    case 27 => Some(MAP_DEFAULTS + {SanctifiedItems})
    case 28 => Some(MAP_DEFAULTS + {DarkAlchemy})
    case 29 => Some(MAP_DEFAULTS + {NestingPortals})
    case 30 => Some(MAP_DEFAULTS + {SoulShards})
    case 31 => Some(MAP_DEFAULTS + {KanaiPowers})
    case 32 => Some(MAP_DEFAULTS + {EtherealItems})
    case 33 => Some(MAP_DEFAULTS + {ShadowClones, FourthKanaisCubeSlot})
    case 34 => Some(MAP_DEFAULTS + {SanctifiedItems})
    case 35 => Some(MAP_DEFAULTS + {Pandemonium})
    case 36 => Some(MAP_DEFAULTS + {SoulShards})
    case 37 => Some(MAP_DEFAULTS + {KanaiPowers})
    case _ => None
  }

  /** The map is consulted at all: the mode asks for it, the section is active and the season is mapped. */
  predicate MapApplies(mode: MapMode, active: bool, season: int) {
    mode != Disabled && active && BuildSeasonEventMap(season).Some?
  }

  /** The switches of `[events]` after the season map: `Active` is kept, the flags are replaced or extended. */
  function ApplySeasonMap(mode: MapMode, active: bool, season: int, on: Flags): Flags {
    if mode == Disabled || !active then on
    else
      match BuildSeasonEventMap(season)
      case None => on
      case Some(seasonMap) =>
        var current := on - NOT_FLAGS;
        var merged := if mode == OverlayConfig then seasonMap + current else seasonMap;
        (on * NOT_FLAGS) + merged
  }

  /** Exactly the seasons 14-22 and 24-37 are mapped, always to flags, always including the default ones. */
  lemma MappedSeasons(season: int)
    ensures BuildSeasonEventMap(season).Some? <==> 14 <= season <= 22 || 24 <= season <= 37
    ensures BuildSeasonEventMap(season).Some? ==>
      MAP_DEFAULTS <= BuildSeasonEventMap(season).value && BuildSeasonEventMap(season).value !! NOT_FLAGS
  {
  }

  /** The seasons whose map has a flag, flag by flag. */
  predicate HasFlag(season: int, f: EventsField) {
    match f
    case DarkAlchemy => 14 <= season <= 37 && season != 23
    case DoubleTreasureGoblins => season == 14
    case DoubleBountyBags => season == 15
    case RoyalGrandeur => season == 16
    case LegacyOfNightmares => season == 17
    case TriunesWill => season == 18
    case Pandemonium => season == 19 || season == 35
    case KanaiPowers => season == 20 || season == 31 || season == 37
    case TrialsOfTempests => season == 21
    case ShadowClones => season == 22 || season == 33
    case FourthKanaisCubeSlot => season == 22 || season == 33
    case EtherealItems => season == 24 || season == 32
    case SoulShards => season == 25 || season == 30 || season == 36
    case SwarmRifts => season == 26
    case SanctifiedItems => season == 27 || season == 34
    case NestingPortals => season == 29
    case _ => false
  }

  /** The map, read by flag instead of by season. */
  lemma FlagBySeason(f: EventsField, season: int)
    ensures BuildSeasonEventMap(season).Some? && f in BuildSeasonEventMap(season).value <==> HasFlag(season, f)
  {
  }

  /**
   Whether a flag is on after the map has been applied: by the map alone, by either, or as it was `given`.
   `Active` stays as it was.
   */
  predicate OnAfterMap(mode: MapMode, active: bool, season: int, f: EventsField, given: bool) {
    if f != EventsField.Active && mode == MapOnly && active && 14 <= season <= 37 && season != 23
    then HasFlag(season, f)
    else given || (mode == OverlayConfig && active && HasFlag(season, f))
  }

  lemma FlagAfterMap(mode: MapMode, active: bool, season: int, on: Flags, f: EventsField)
    requires f != SeasonMapMode
    ensures f in ApplySeasonMap(mode, active, season, on) <==> OnAfterMap(mode, active, season, f, f in on)
  {
    FlagBySeason(f, season);
  }

  /** `MapOnly` ignores the configured flags; nothing but the flags changes. */
  lemma MapOnlyIgnoresFlags(season: int, on: Flags, other: Flags)
    requires MapApplies(MapOnly, true, season)
    ensures ApplySeasonMap(MapOnly, true, season, on) - NOT_FLAGS
         == ApplySeasonMap(MapOnly, true, season, other) - NOT_FLAGS
    ensures ApplySeasonMap(MapOnly, true, season, on) - NOT_FLAGS == BuildSeasonEventMap(season).value
    ensures ApplySeasonMap(MapOnly, true, season, on) * NOT_FLAGS == on * NOT_FLAGS
  {
  }

  /** `OverlayConfig` is a closure: extensive, monotone, idempotent, and above the plain map. */
  lemma OverlayIsClosure(season: int, on: Flags, more: Flags)
    requires MapApplies(OverlayConfig, true, season)
    requires on <= more
    ensures on <= ApplySeasonMap(OverlayConfig, true, season, on)
    ensures ApplySeasonMap(OverlayConfig, true, season, on) <= ApplySeasonMap(OverlayConfig, true, season, more)
    ensures ApplySeasonMap(MapOnly, true, season, on) <= ApplySeasonMap(OverlayConfig, true, season, on)
    ensures ApplySeasonMap(OverlayConfig, true, season, on) <= ApplySeasonMap(MapOnly, true, season, on) + on
  {
  }

  /** In every mode the map is idempotent, and it is the identity exactly where it does not apply or adds nothing. */
  lemma SeasonMapIdempotent(mode: MapMode, active: bool, season: int, on: Flags)
    ensures ApplySeasonMap(mode, active, season, ApplySeasonMap(mode, active, season, on))
         == ApplySeasonMap(mode, active, season, on)
    ensures ApplySeasonMap(mode, active, season, on) == on <==>
      (MapApplies(mode, active, season) ==>
        if mode == MapOnly then on - NOT_FLAGS == BuildSeasonEventMap(season).value
        else BuildSeasonEventMap(season).value <= on)
  {
  }
}
