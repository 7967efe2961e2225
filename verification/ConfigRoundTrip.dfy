/** Normalisation: what writing a configuration and reading it back does, and when it does nothing. */
module ConfigRoundTrip {
  import opened Options
  import opened Toml
  import opened Spelling
  import opened Settings
  import opened ConfigLayouts
  import opened LayoutAliases
  import opened SeasonEvents
  import opened PatchConfigs

  // ----- the reference: cleaning a configuration without going through a tree

  function CleanRifts(st: Settings<RiftsField>): Settings<RiftsField> {
    SortRange(Clamped(RIFTS, st))
  }

  function CleanEvents(c: Config): Settings<EventsField> {
    c.events.(on := ApplySeasonMap(c.mapMode, SeasonsField.Active in c.seasons.on,
      Num(Clamped(SEASONS, c.seasons), CurrentSeason), c.events.on))
  }

  /** A rank value in range decides; otherwise the rank text does, and otherwise the value there was before. */
  function CleanRank(rank: string, value: int, before: int): (string, int) {
    if 0 <= value <= 2 then (AncientRankCanonical(value, ""), value) else ResolveRank(rank, before)
  }

  function CleanSpeed(v: real): real {
    ClampReal(Round1Decimal(v), 0.1, 10.0)
  }

  /** The upper scale decides when the two scales cross. */
  function CleanOutput(devMem: bool, o: Output): Output {
    var maxScale := ClampReal(o.maxScale, 10.0, 100.0);
    Output(
      Min(ClampInt(o.target, 720, 2160), MaxTarget(devMem)),
      SetHandheldScale(ClampReal(o.handheldScale, 0.0, 100.0)),
      ClampReal(o.minScale, 10.0, maxScale),
      maxScale,
      if o.clampTexture == 0 then 0 else ClampInt(o.clampTexture, 100, 9999))
  }

  /**
   What is left of `c` after it is written and read back over `before`. Of `before` only two things
   can survive: its rank value, as a last resort, and its language, when `c` has none.
   */
  function CleanOver(devMem: bool, before: Config, c: Config): Config {
    Config(
      true, false,
      Clamped(SEASONS, c.seasons),
      CleanRifts(c.rifts),
      CleanEvents(c),
      c.mapMode,
      Clamped(EXTRA, c.extra),
      c.cheats,
      CleanSpeed(c.moveSpeed),
      CleanSpeed(c.attackSpeed),
      Clamped(LOOT, c.loot),
      CleanRank(c.rank, c.rankValue, before.rankValue).0,
      CleanRank(c.rank, c.rankValue, before.rankValue).1,
      c.overlays,
      c.gui,
      if c.language == "" then before.language else c.language,
      c.debug,
      c.resolution,
      CleanOutput(devMem, c.output))
  }

  lemma ClampedTyped<F(!new)>(l: Layout<F>, st: Settings<F>)
    requires WellFormed(l) && Typed(l, st)
    ensures Typed(l, Clamped(l, st))
  {
  }

  // ----- the tree that is written

  lemma RootFirst(resolution: Node, seasons: Node, rifts: Node, events: Node, cheats: Node, loot: Node,
                 overlays: Node, gui: Node, debug: Node)
    ensures var root := Root(resolution, seasons, rifts, events, cheats, loot, overlays, gui, debug);
      root.Keys >= {"resolution_hack", "seasons", "challenge_rifts", "events", "rare_cheats"} &&
      root["resolution_hack"] == resolution && root["seasons"] == seasons && root["challenge_rifts"] == rifts &&
      root["events"] == events && root["rare_cheats"] == cheats
  {
  }

  lemma RootLast(resolution: Node, seasons: Node, rifts: Node, events: Node, cheats: Node, loot: Node,
                 overlays: Node, gui: Node, debug: Node)
    ensures var root := Root(resolution, seasons, rifts, events, cheats, loot, overlays, gui, debug);
      root.Keys >= {"loot_modifiers", "overlays", "gui", "debug"} &&
      root["loot_modifiers"] == loot && root["overlays"] == overlays && root["gui"] == gui && root["debug"] == debug
  {
  }

  /** The sections a configuration is written as. */
  function WrittenSections(c: Config): Sections {
    LayoutsWellFormed();
    Sections(
      Some(Written(SEASONS, c.seasons, map[])),
      Some(Written(RIFTS, c.rifts, map[])),
      Some(Written(EVENTS, c.events, EventsSpecials(c.mapMode))),
      Some(Written(CHEATS, c.cheats, CheatsSpecials(c.moveSpeed, c.attackSpeed))),
      Some(Written(LOOT, c.loot, LootSpecials(c.rank, c.rankValue))),
      Some(Written(OVERLAYS, c.overlays, map[])),
      Some(Written(GUI, c.gui, GuiSpecials(c.language))),
      Some(Written(DEBUG, c.debug, map[])),
      Some(Written(RESOLUTION, c.resolution, ResolutionSpecials(Written(EXTRA, c.extra, map[]), c.output))))
  }

  lemma SectionsOfBuiltTable(c: Config)
    ensures SectionsOf(BuildTable(c)) == WrittenSections(c)
  {
    var w := WrittenSections(c);
    RootFirst(Table(w.resolution.value), Table(w.seasons.value), Table(w.rifts.value), Table(w.events.value),
      Table(w.cheats.value), Table(w.loot.value), Table(w.overlays.value), Table(w.gui.value), Table(w.debug.value));
    RootLast(Table(w.resolution.value), Table(w.seasons.value), Table(w.rifts.value), Table(w.events.value),
      Table(w.cheats.value), Table(w.loot.value), Table(w.overlays.value), Table(w.gui.value), Table(w.debug.value));
  }

  /** A special field that is written is read back through its aliases. */
  lemma ReadSpecial<F(!new), T>(l: Layout<F>, st: Settings<F>, special: map<F, Node>, f: F, conv: Node -> Option<T>)
    requires WellFormed(l) && Typed(l, st)
    requires f in l.all && l.kind(f).Special? && f in special
    requires conv(special[f]).Some?
    ensures ReadValue(Written(l, st, special), l.row(f).aliases, conv) == conv(special[f])
  {
    ReadWrittenField(l, st, special, f, conv);
  }

  lemma ReadSpecialNumber<F(!new)>(lib: Library, l: Layout<F>, st: Settings<F>, special: map<F, Node>, f: F, v: real)
    requires Exact(lib)
    requires WellFormed(l) && Typed(l, st)
    requires f in l.all && l.kind(f).Special? && f in special
    requires special[f] == Float(v) || (special[f].Int? && Representable(special[f].i) && v == special[f].i as real)
    ensures ReadNumber(lib, Written(l, st, special), l.row(f).aliases) == Some(v)
  {
    var conv := n => lib.AsNumber(n);
    if special[f].Int? {
      var i := special[f].i;
      assert lib.asDouble(Int(i)) in {None, Some(i as real)} && lib.asInt(Int(i)) == Some(i);
    }
    assert conv(special[f]) == Some(v);
    ReadSpecial(l, st, special, f, conv);
  }

  // ----- the special fields, one by one

  lemma MapModeRoundTrip(lib: Library, st: Settings<EventsField>, mode: MapMode, over: MapMode)
    requires Exact(lib) && WellFormed(EVENTS) && Typed(EVENTS, st)
    ensures ApplyMapMode(lib, Some(Written(EVENTS, st, EventsSpecials(mode))), over) == mode
  {
    assert EVENTS.kind(SeasonMapMode).Special?;
    ReadSpecial(EVENTS, st, EventsSpecials(mode), SeasonMapMode, lib.asString);
    ParsePrintedMode(mode, over);
  }

  lemma SpeedsRoundTrip(lib: Library, st: Settings<CheatsField>, moveSpeed: real, attackSpeed: real, f: CheatsField,
      over: real)
    requires Exact(lib) && WellFormed(CHEATS) && Typed(CHEATS, st)
    requires f == MoveSpeed || f == AttackSpeed
    ensures ApplySpeed(lib, Some(Written(CHEATS, st, CheatsSpecials(moveSpeed, attackSpeed))), f, over)
         == CleanSpeed(if f == MoveSpeed then moveSpeed else attackSpeed)
  {
    var v := if f == MoveSpeed then moveSpeed else attackSpeed;
    assert CHEATS.kind(f).Special?;
    ReadSpecialNumber(lib, CHEATS, st, CheatsSpecials(moveSpeed, attackSpeed), f, Round1Decimal(v));
  }

  lemma RankRoundTrip(lib: Library, st: Settings<LootField>, rank: string, value: int, over: (string, int))
    requires Exact(lib) && WellFormed(LOOT) && Typed(LOOT, st)
    ensures ApplyRank(lib, Some(Written(LOOT, st, LootSpecials(rank, value))), over) == CleanRank(rank, value, over.1)
  {
    assert LOOT.kind(AncientRank).Special?;
    ReadSpecial(LOOT, st, LootSpecials(rank, value), AncientRank, lib.asString);
    if 0 <= value <= 2 {
      ParseCanonicalRank(value, rank, over.1);
    }
  }

  lemma LanguageRoundTrip(lib: Library, st: Settings<GuiField>, language: string, over: string)
    requires Exact(lib) && WellFormed(GUI) && Typed(GUI, st)
    ensures ApplyLanguage(lib, Some(Written(GUI, st, GuiSpecials(language))), over)
         == if language == "" then over else language
  {
    assert GUI.kind(Language).Special?;
    if language == "" {
      LanguageKeysFree();
      ReadUnwritten(Written(GUI, st, map[]), GuiRow(Language).aliases, lib.asString);
    } else {
      ReadSpecial(GUI, st, GuiSpecials(language), Language, lib.asString);
    }
  }

  /** None of the keys the language is read from is written for another field. */
  lemma LanguageKeysFree()
    ensures forall f: GuiField, k :: f != Language && k in GuiRow(Language).aliases ==> GuiRow(f).Key() != k
  {
  }

  lemma ExtraRoundTrip(st: Settings<ResolutionField>, extra: Tab, o: Output)
    requires WellFormed(RESOLUTION) && Typed(RESOLUTION, st)
    ensures FindExtra(Some(Written(RESOLUTION, st, ResolutionSpecials(extra, o)))) == Some(extra)
  {
    var special := ResolutionSpecials(extra, o);
    assert RESOLUTION.kind(ExtraTable).Special?;
    assert IsWritten(RESOLUTION, special, ExtraTable);
    assert RESOLUTION.row(ExtraTable).Key() == "extra";
    assert Written(RESOLUTION, st, special)["extra"] == special[ExtraTable];
  }

  lemma ReadOutputNumber(lib: Library, st: Settings<ResolutionField>, extra: Tab, o: Output, f: ResolutionField,
      v: real)
    requires Exact(lib) && WellFormed(RESOLUTION) && Typed(RESOLUTION, st)
    requires IsU32(o.target) && IsU32(o.clampTexture)
    requires
      || (f == OutputTarget && v == o.target as real)
      || (f == OutputHandheldScale && v == o.handheldScale)
      || (f == MinResScale && v == o.minScale)
      || (f == MaxResScale && v == o.maxScale)
      || (f == ClampTextureResolution && v == o.clampTexture as real)
    ensures ReadNumber(lib, Written(RESOLUTION, st, ResolutionSpecials(extra, o)), ResolutionRow(f).aliases) == Some(v)
  {
    assert RESOLUTION.kind(f).Special?;
    ReadSpecialNumber(lib, RESOLUTION, st, ResolutionSpecials(extra, o), f, v);
  }

  /** A table that gives all five special fields decides them, whatever they were. */
  lemma OutputOfReadings(lib: Library, devMem: bool, t: Tab, o: Output, over: Output)
    requires IsU32(o.target) && IsU32(o.clampTexture)
    requires ReadNumber(lib, t, ResolutionRow(OutputTarget).aliases) == Some(o.target as real)
    requires ReadNumber(lib, t, ResolutionRow(OutputHandheldScale).aliases) == Some(o.handheldScale)
    requires ReadNumber(lib, t, ResolutionRow(MinResScale).aliases) == Some(o.minScale)
    requires ReadNumber(lib, t, ResolutionRow(MaxResScale).aliases) == Some(o.maxScale)
    requires ReadNumber(lib, t, ResolutionRow(ClampTextureResolution).aliases) == Some(o.clampTexture as real)
    ensures ApplyOutput(lib, devMem, Some(t), over) == CleanOutput(devMem, o)
  {
    TruncateClamped(o.target, 720, 2160);
    TruncateClamped(o.clampTexture, 0, 9999);
  }

  lemma OutputRoundTrip(lib: Library, devMem: bool, st: Settings<ResolutionField>, extra: Tab, o: Output, over: Output)
    requires Exact(lib) && WellFormed(RESOLUTION) && Typed(RESOLUTION, st)
    requires IsU32(o.target) && IsU32(o.clampTexture)
    ensures ApplyOutput(lib, devMem, Some(Written(RESOLUTION, st, ResolutionSpecials(extra, o))), over)
         == CleanOutput(devMem, o)
  {
    ReadOutputNumber(lib, st, extra, o, OutputTarget, o.target as real);
    ReadOutputNumber(lib, st, extra, o, OutputHandheldScale, o.handheldScale);
    ReadOutputNumber(lib, st, extra, o, MinResScale, o.minScale);
    ReadOutputNumber(lib, st, extra, o, MaxResScale, o.maxScale);
    ReadOutputNumber(lib, st, extra, o, ClampTextureResolution, o.clampTexture as real);
    OutputOfReadings(lib, devMem, Written(RESOLUTION, st, ResolutionSpecials(extra, o)), o, over);
  }

  /** A section without numbers is read back as it was written. */
  lemma SwitchesRoundTrip<F(!new)>(lib: Library, l: Layout<F>, st: Settings<F>, special: map<F, Node>,
      over: Settings<F>)
    requires Exact(lib)
    requires WellFormed(l) && Typed(l, st) && Typed(l, over)
    requires forall f :: f in l.all ==> !l.kind(f).Number?
    ensures ReadSettings(lib, l, Some(Written(l, st, special)), over) == st
  {
    ReadWritten(lib, l, st, special, over);
    assert st.num == map[];
  }

  lemma SwitchSectionsRoundTrip(lib: Library, c: Config, d: Config)
    requires Exact(lib) && WellTyped(c) && WellTyped(d)
    requires WellFormed(EVENTS) && WellFormed(CHEATS) && WellFormed(OVERLAYS) && WellFormed(GUI) && WellFormed(DEBUG)
    ensures ReadSettings(lib, EVENTS, Some(Written(EVENTS, c.events, EventsSpecials(c.mapMode))), d.events) == c.events
    ensures ReadSettings(lib, CHEATS, Some(Written(CHEATS, c.cheats, CheatsSpecials(c.moveSpeed, c.attackSpeed))),
      d.cheats)
         == c.cheats
    ensures ReadSettings(lib, OVERLAYS, Some(Written(OVERLAYS, c.overlays, map[])), d.overlays) == c.overlays
    ensures ReadSettings(lib, GUI, Some(Written(GUI, c.gui, GuiSpecials(c.language))), d.gui) == c.gui
    ensures ReadSettings(lib, DEBUG, Some(Written(DEBUG, c.debug, map[])), d.debug) == c.debug
  {
    SwitchesRoundTrip(lib, EVENTS, c.events, EventsSpecials(c.mapMode), d.events);
    SwitchesRoundTrip(lib, CHEATS, c.cheats, CheatsSpecials(c.moveSpeed, c.attackSpeed), d.cheats);
    SwitchesRoundTrip(lib, OVERLAYS, c.overlays, map[], d.overlays);
    SwitchesRoundTrip(lib, GUI, c.gui, GuiSpecials(c.language), d.gui);
    SwitchesRoundTrip(lib, DEBUG, c.debug, map[], d.debug);
  }

  lemma NumberSectionsRoundTrip(lib: Library, c: Config, d: Config)
    requires Exact(lib) && WellTyped(c) && WellTyped(d)
    requires WellFormed(SEASONS) && WellFormed(RIFTS) && WellFormed(EXTRA) && WellFormed(LOOT)
    ensures ReadSettings(lib, SEASONS, Some(Written(SEASONS, c.seasons, map[])), d.seasons)
         == Clamped(SEASONS, c.seasons)
    ensures ApplyRifts(lib, Some(Written(RIFTS, c.rifts, map[])), d.rifts) == CleanRifts(c.rifts)
    ensures ReadSettings(lib, EXTRA, Some(Written(EXTRA, c.extra, map[])), d.extra) == Clamped(EXTRA, c.extra)
    ensures ReadSettings(lib, LOOT, Some(Written(LOOT, c.loot, LootSpecials(c.rank, c.rankValue))), d.loot)
         == Clamped(LOOT, c.loot)
  {
    ReadWritten(lib, SEASONS, c.seasons, map[], d.seasons);
    ReadWritten(lib, RIFTS, c.rifts, map[], d.rifts);
    ReadWritten(lib, EXTRA, c.extra, map[], d.extra);
    ReadWritten(lib, LOOT, c.loot, LootSpecials(c.rank, c.rankValue), d.loot);
  }

  lemma ResolutionSwitchesRoundTrip(lib: Library, st: Settings<ResolutionField>, extra: Tab, o: Output,
                                    over: Settings<ResolutionField>)
    requires Exact(lib) && WellFormed(RESOLUTION) && Typed(RESOLUTION, st) && Typed(RESOLUTION, over)
    ensures ReadSettings(lib, RESOLUTION, Some(Written(RESOLUTION, st, ResolutionSpecials(extra, o))), over) == st
  {
    SwitchesRoundTrip(lib, RESOLUTION, st, ResolutionSpecials(extra, o), over);
  }

  lemma ResolutionSectionRoundTrip(lib: Library, devMem: bool, c: Config, over: Settings<ResolutionField>,
      overOutput: Output)
    requires Exact(lib) && WellTyped(c)
    requires WellFormed(RESOLUTION) && WellFormed(EXTRA) && Typed(RESOLUTION, over)
    ensures var t := Some(Written(RESOLUTION, c.resolution,
      ResolutionSpecials(Written(EXTRA, c.extra, map[]), c.output)));
      && ReadSettings(lib, RESOLUTION, t, over) == c.resolution
      && FindExtra(t) == Some(Written(EXTRA, c.extra, map[]))
      && ApplyOutput(lib, devMem, t, overOutput) == CleanOutput(devMem, c.output)
  {
    var extra := Written(EXTRA, c.extra, map[]);
    ResolutionSwitchesRoundTrip(lib, c.resolution, extra, c.output, over);
    ExtraRoundTrip(c.resolution, extra, c.output);
    OutputRoundTrip(lib, devMem, c.resolution, extra, c.output, overOutput);
  }

  /** Writing `c` and applying the result to any other configuration cleans `c`. */
  lemma WrittenThenApplied(lib: Library, devMem: bool, before: Config, c: Config)
    requires Exact(lib) && WellTyped(c) && WellTyped(before)
    ensures Applied(lib, devMem, before, BuildTable(c)) == CleanOver(devMem, before, c)
  {
    LayoutsWellFormed();
    SectionsOfBuiltTable(c);
    SwitchSectionsRoundTrip(lib, c, before);
    NumberSectionsRoundTrip(lib, c, before);
    ResolutionSectionRoundTrip(lib, devMem, c, before.resolution, before.output);
    MapModeRoundTrip(lib, c.events, c.mapMode, before.mapMode);
    SpeedsRoundTrip(lib, c.cheats, c.moveSpeed, c.attackSpeed, MoveSpeed, before.moveSpeed);
    SpeedsRoundTrip(lib, c.cheats, c.moveSpeed, c.attackSpeed, AttackSpeed, before.attackSpeed);
    RankRoundTrip(lib, c.loot, c.rank, c.rankValue, (before.rank, before.rankValue));
    LanguageRoundTrip(lib, c.gui, c.language, before.language);
  }
}
