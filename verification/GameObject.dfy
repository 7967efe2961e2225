/** The settings read by `PatchConfig::ApplyTable` itself, updated in place. */
module GameObject {
  import opened Options
  import opened Toml
  import opened Spelling
  import opened Settings
  import opened ConfigLayouts
  import opened SeasonEvents
  import opened PatchConfigs
  import opened SectionObject

  class GameSettings {
    const seasons: Section<SeasonsField>
    const rifts: Section<RiftsField>
    const events: Section<EventsField>
    var mapMode: MapMode
    const extra: Section<ExtraField>
    const cheats: Section<CheatsField>
    var moveSpeed: real
    var attackSpeed: real
    const loot: Section<LootField>
    var rank: string
    var rankValue: int

    ghost function Parts(): set<object> {
      {this, seasons, rifts, events, extra, cheats, loot}
    }

    ghost predicate Laid() {
      && seasons.layout == SEASONS && rifts.layout == RIFTS && events.layout == EVENTS
      && extra.layout == EXTRA && cheats.layout == CHEATS && loot.layout == LOOT
    }

    /** Every section has its layout and every field a value of its type. */
    ghost predicate Valid()
      reads Parts()
    {
      Laid() && GameTyped(Value())
    }

    function Value(): GameValue
      reads Parts()
    {
      GameValue(seasons.Value(), rifts.Value(), events.Value(), mapMode, extra.Value(), cheats.Value(), moveSpeed,
        attackSpeed, loot.Value(), rank, rankValue)
    }

    constructor ()
      ensures fresh(Parts()) && Laid()
      ensures Value() == GameValue(SEASONS_DEFAULT, RIFTS_DEFAULT, EVENTS_DEFAULT, Disabled, EXTRA_DEFAULT,
        CHEATS_DEFAULT, 2.5, 1.0, LOOT_DEFAULT, "Primal", 2)
    {
      mapMode, moveSpeed, attackSpeed, rank, rankValue := Disabled, 2.5, 1.0, "Primal", 2;
      seasons := new Section(SEASONS, SEASONS_DEFAULT);
      rifts := new Section(RIFTS, RIFTS_DEFAULT);
      events := new Section(EVENTS, EVENTS_DEFAULT);
      extra := new Section(EXTRA, EXTRA_DEFAULT);
      cheats := new Section(CHEATS, CHEATS_DEFAULT);
      loot := new Section(LOOT, LOOT_DEFAULT);
    }

    /** Reads the two ends of the rift range and swaps them when they cross. */
    method ApplyRiftsTable(lib: Library, t: Option<Tab>)
      requires rifts.layout == RIFTS && Typed(RIFTS, rifts.Value())
      modifies rifts
      ensures rifts.Value() == ApplyRifts(lib, t, old(rifts.Value()))
    {
      if t.Some? {
        rifts.Read(lib, t);
        var start, end := Num(rifts.Value(), RangeStart), Num(rifts.Value(), RangeEnd);
        if start > end {
          rifts.num := rifts.num[RangeStart := end];
          rifts.num := rifts.num[RangeEnd := start];
        }
      }
    }

    /** A text decides the season-map mode; only without one does a boolean. */
    method ApplyMapModeTable(lib: Library, t: Option<Tab>)
      modifies `mapMode
      ensures mapMode == ApplyMapMode(lib, t, old(mapMode))
    {
      if t.None? {
        return;
      }
      var text := FindValue(t.value, EventsRow(SeasonMapMode).aliases, lib.asString);
      if text.Some? {
        mapMode := ParseMapMode(text.value, mapMode);
        return;
      }
      var b := FindValue(t.value, EventsRow(SeasonMapMode).aliases, lib.asBool);
      if b.Some? {
        mapMode := if b.value then MapOnly else Disabled;
      }
    }

    method ApplySpeedTable(lib: Library, t: Option<Tab>)
      modifies `moveSpeed, `attackSpeed
      ensures moveSpeed == ApplySpeed(lib, t, MoveSpeed, old(moveSpeed))
      ensures attackSpeed == ApplySpeed(lib, t, AttackSpeed, old(attackSpeed))
    {
      if t.None? {
        return;
      }
      var move := FindValue(t.value, CheatsRow(MoveSpeed).aliases, n => lib.AsNumber(n));
      if move.Some? {
        moveSpeed := ClampReal(move.value, 0.1, 10.0);
      }
      var attack := FindValue(t.value, CheatsRow(AttackSpeed).aliases, n => lib.AsNumber(n));
      if attack.Some? {
        attackSpeed := ClampReal(attack.value, 0.1, 10.0);
      }
    }

    /** The rank text is read, resolved to a value, and overwritten with its canonical name. */
    method ApplyRankTable(lib: Library, t: Option<Tab>)
      modifies `rank, `rankValue
      ensures (rank, rankValue) == ApplyRank(lib, t, old((rank, rankValue)))
    {
      if t.Some? {
        var text := FindValue(t.value, LootRow(AncientRank).aliases, lib.asString);
        if text.Some? {
          rank := text.value;
        }
        rankValue := AncientRankToValue(rank, rankValue);
        rank := AncientRankCanonical(rankValue, rank);
      }
    }

    /** `ApplySeasonEventMapIfNeeded`: overwrites the event flags when a season map applies. */
    method ApplySeasonEventMapIfNeeded()
      modifies events
      ensures events.num == old(events.num)
      ensures events.on ==
        ApplySeasonMap(mapMode, SeasonsField.Active in seasons.on, Num(seasons.Value(), CurrentSeason), old(events.on))
    {
      if mapMode == Disabled {
        return;
      }
      if SeasonsField.Active !in seasons.on {
        return;
      }
      var seasonMap := BuildSeasonEventMap(Num(seasons.Value(), CurrentSeason));
      if seasonMap.None? {
        return;
      }
      var current := events.on - NOT_FLAGS;
      var merged := if mapMode == OverlayConfig then seasonMap.value + current else seasonMap.value;
      events.on := (events.on * NOT_FLAGS) + merged;
    }

    /** The seasons, rifts and events sections; the season map is applied later. */
    method ApplyEventTables(lib: Library, t: Sections)
      requires Laid() && Typed(SEASONS, seasons.Value()) && Typed(RIFTS, rifts.Value()) && Typed(EVENTS, events.Value())
      modifies seasons, rifts, events, `mapMode
      ensures seasons.Value() == ReadSettings(lib, SEASONS, t.seasons, old(seasons.Value()))
      ensures rifts.Value() == ApplyRifts(lib, t.rifts, old(rifts.Value()))
      ensures mapMode == ApplyMapMode(lib, t.events, old(mapMode))
      ensures events.Value() == ReadSettings(lib, EVENTS, t.events, old(events.Value()))
    {
      seasons.Read(lib, t.seasons);
      ApplyRiftsTable(lib, t.rifts);
      ApplyMapModeTable(lib, t.events);
      events.Read(lib, t.events);
    }

    /** The extra, cheat and loot sections. */
    method ApplyPlayTables(lib: Library, t: Sections)
      requires Laid() && Typed(EXTRA, extra.Value()) && Typed(CHEATS, cheats.Value()) && Typed(LOOT, loot.Value())
      modifies extra, cheats, loot, `moveSpeed, `attackSpeed, `rank, `rankValue
      ensures extra.Value() == ReadSettings(lib, EXTRA, FindExtra(t.resolution), old(extra.Value()))
      ensures cheats.Value() == ReadSettings(lib, CHEATS, t.cheats, old(cheats.Value()))
      ensures moveSpeed == ApplySpeed(lib, t.cheats, MoveSpeed, old(moveSpeed))
      ensures attackSpeed == ApplySpeed(lib, t.cheats, AttackSpeed, old(attackSpeed))
      ensures loot.Value() == ReadSettings(lib, LOOT, t.loot, old(loot.Value()))
      ensures (rank, rankValue) == ApplyRank(lib, t.loot, old((rank, rankValue)))
    {
      extra.Read(lib, FindExtra(t.resolution));
      cheats.Read(lib, t.cheats);
      ApplySpeedTable(lib, t.cheats);
      loot.Read(lib, t.loot);
      ApplyRankTable(lib, t.loot);
    }

    /** The sections in the order of the source, and the season map at the end, on what was read. */
    method Apply(lib: Library, t: Sections)
      requires Valid()
      modifies Parts()
      ensures Value() == AppliedGame(lib, old(Value()), t)
    {
      ApplyEventTables(lib, t);
      ApplyPlayTables(lib, t);
      ApplySeasonEventMapIfNeeded();
    }
  }
}
