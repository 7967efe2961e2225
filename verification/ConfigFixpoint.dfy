/** Normalisation is idempotent; its fixed points; and what a saved file restores. */
module ConfigFixpoint {
  import opened Toml
  import opened Spelling
  import opened Settings
  import opened ConfigLayouts
  import opened LayoutAliases
  import opened SeasonEvents
  import opened PatchConfigs
  import opened ConfigRoundTrip

  // ----- the canonical configurations

  ghost predicate InBounds<F(!new)>(l: Layout<F>, st: Settings<F>) {
    forall f :: f in st.num && l.kind(f).Number? ==> l.kind(f).lo <= st.num[f] <= l.kind(f).hi
  }

  predicate Steps(v: real, step: real, k: int) {
    v == step * k as real
  }

  /** A whole number of tenths between 0.1 and 10. */
  ghost predicate CanonicalSpeed(v: real) {
    exists k :: 1 <= k <= 100 && Steps(v, 0.1, k)
  }

  /** Off, or a whole number of five-percent steps between 40 and 100. */
  ghost predicate CanonicalHandheld(v: real) {
    v == 0.0 || exists k :: 8 <= k <= 20 && Steps(v, 5.0, k)
  }

  ghost predicate CanonicalOutput(devMem: bool, o: Output) {
    && 720 <= o.target <= (if devMem then 2160 else 1440)
    && CanonicalHandheld(o.handheldScale)
    && 10.0 <= o.minScale <= o.maxScale <= 100.0
    && (o.clampTexture == 0 || 100 <= o.clampTexture <= 9999)
  }

  /** The flags are closed under the season map that is active, if one is. */
  ghost predicate CanonicalEvents(mode: MapMode, active: bool, season: int, on: Flags) {
    active && 14 <= season <= 37 && season != 23 ==>
      match mode
      case MapOnly => forall f :: f !in NOT_FLAGS ==> (f in on <==> HasFlag(season, f))
      case OverlayConfig => forall f :: HasFlag(season, f) ==> f in on
      case Disabled => true
  }

  ghost predicate CanonicalRank(rank: string, value: int) {
    (value == 0 && rank == "Normal") || (value == 1 && rank == "Ancient") || (value == 2 && rank == "Primal")
  }

  predicate CanonicalSeason(st: Settings<SeasonsField>) {
    1 <= Num(st, CurrentSeason) <= 200
  }

  /** Both ends within bounds and in order. */
  predicate CanonicalRange(st: Settings<RiftsField>) {
    0 <= Num(st, RangeStart) <= Num(st, RangeEnd) <= 999
  }

  ghost predicate CanonicalExtra(st: Settings<ExtraField>) {
    && (forall f :: f != RefreshRate && f != BitDepth && f != MsaaLevel ==> -1 <= Num(st, f) <= 16384)
    && -1 <= Num(st, RefreshRate) <= 1000
    && -1 <= Num(st, BitDepth) <= 64
    && -1 <= Num(st, MsaaLevel) <= 16
  }

  predicate CanonicalLoot(st: Settings<LootField>) {
    0 <= Num(st, ForcedILevel) <= 70 && 0 <= Num(st, TieredLootRunLevel) <= 150
  }

  ghost predicate Canonical(devMem: bool, c: Config) {
    && c.initialized && !c.defaultsOnly
    && CanonicalSeason(c.seasons) && CanonicalRange(c.rifts) && CanonicalExtra(c.extra) && CanonicalLoot(c.loot)
    && CanonicalEvents(c.mapMode, SeasonsField.Active in c.seasons.on, Num(c.seasons, CurrentSeason), c.events.on)
    && CanonicalSpeed(c.moveSpeed) && CanonicalSpeed(c.attackSpeed)
    && CanonicalRank(c.rank, c.rankValue)
    && CanonicalOutput(devMem, c.output)
  }

  // ----- closed flags are those that the season map leaves alone

  lemma ClosedFlags(mode: MapMode, active: bool, season: int, on: Flags)
    ensures CanonicalEvents(mode, active, season, on) <==> ApplySeasonMap(mode, active, season, on) == on
  {
    forall f
      ensures BuildSeasonEventMap(season).Some? && f in BuildSeasonEventMap(season).value <==> HasFlag(season, f)
    {
      FlagBySeason(f, season);
    }
    SeasonMapIdempotent(mode, active, season, on);
  }

  lemma MappedFlagsClosed(mode: MapMode, active: bool, season: int, on: Flags)
    ensures CanonicalEvents(mode, active, season, ApplySeasonMap(mode, active, season, on))
  {
    SeasonMapIdempotent(mode, active, season, on);
    ClosedFlags(mode, active, season, ApplySeasonMap(mode, active, season, on));
  }

  // ----- cleaning, component by component

  lemma RoundOfInteger(k: int)
    ensures RoundHalfAway(k as real) == k
  {
  }

  lemma CleanSpeedCanonical(v: real)
    ensures CanonicalSpeed(CleanSpeed(v))
    ensures CleanSpeed(v) == v <==> CanonicalSpeed(v)
  {
    var n := RoundHalfAway(v * 10.0);
    assert Steps(CleanSpeed(v), 0.1, ClampInt(n, 1, 100));
    if CanonicalSpeed(v) {
      var k :| 1 <= k <= 100 && Steps(v, 0.1, k);
      assert v * 10.0 == k as real;
      RoundOfInteger(k);
    }
  }

  lemma HandheldSteps(v: real)
    requires 40.0 <= v <= 100.0
    ensures 8 <= RoundHalfAway(v / 5.0) <= 20
    ensures NormalizeHandheldScale(v) == RoundHalfAway(v / 5.0) as real * 5.0
  {
  }

  lemma CleanHandheldCanonical(v: real)
    ensures CanonicalHandheld(SetHandheldScale(ClampReal(v, 0.0, 100.0)))
    ensures SetHandheldScale(ClampReal(v, 0.0, 100.0)) == v <==> CanonicalHandheld(v)
  {
    var percent := if 0.0 < v <= 1.0 then v * 100.0 else ClampReal(v, 0.0, 100.0);
    var r := SetHandheldScale(ClampReal(v, 0.0, 100.0));
    assert r == NormalizeHandheldScale(percent);
    if percent > 0.0 {
      var clamped := ClampReal(percent, 40.0, 100.0);
      HandheldSteps(clamped);
      assert Steps(r, 5.0, RoundHalfAway(clamped / 5.0));
    }
    if v != 0.0 && CanonicalHandheld(v) {
      var k :| 8 <= k <= 20 && Steps(v, 5.0, k);
      assert v / 5.0 == k as real;
      RoundOfInteger(k);
    }
  }

  lemma CleanOutputCanonical(devMem: bool, o: Output)
    requires IsU32(o.target) && IsU32(o.clampTexture)
    ensures CanonicalOutput(devMem, CleanOutput(devMem, o))
    ensures CleanOutput(devMem, o) == o <==> CanonicalOutput(devMem, o)
  {
    CleanHandheldCanonical(o.handheldScale);
  }

  lemma CleanRankCanonical(rank: string, value: int, before: int)
    ensures 0 <= before <= 2 ==> CanonicalRank(CleanRank(rank, value, before).0, CleanRank(rank, value, before).1)
    ensures CanonicalRank(rank, value) ==> CleanRank(rank, value, before) == (rank, value)
  {
  }

  lemma ClampedInBounds<F(!new)>(l: Layout<F>, st: Settings<F>)
    requires WellFormed(l) && Typed(l, st)
    ensures Typed(l, Clamped(l, st))
    ensures InBounds(l, Clamped(l, st))
    ensures Clamped(l, st) == st <==> InBounds(l, st)
  {
    var r := Clamped(l, st);
    if InBounds(l, st) {
      assert r.num == st.num;
    } else {
      var f :| f in st.num && !(l.kind(f).lo <= st.num[f] <= l.kind(f).hi);
      assert r.num[f] != st.num[f];
    }
  }

  lemma CleanSeasonCanonical(st: Settings<SeasonsField>)
    requires Typed(SEASONS, st)
    ensures Typed(SEASONS, Clamped(SEASONS, st)) && CanonicalSeason(Clamped(SEASONS, st))
    ensures Clamped(SEASONS, st) == st <==> CanonicalSeason(st)
  {
    SeasonsWellFormed();
    ClampedInBounds(SEASONS, st);
    SeasonInBounds(st);
    SeasonInBounds(Clamped(SEASONS, st));
  }

  lemma SeasonInBounds(st: Settings<SeasonsField>)
    requires Typed(SEASONS, st)
    ensures CanonicalSeason(st) <==> InBounds(SEASONS, st)
  {
  }

  lemma CleanExtraCanonical(st: Settings<ExtraField>)
    requires Typed(EXTRA, st)
    ensures Typed(EXTRA, Clamped(EXTRA, st)) && CanonicalExtra(Clamped(EXTRA, st))
    ensures Clamped(EXTRA, st) == st <==> CanonicalExtra(st)
  {
    ExtraWellFormed();
    ClampedInBounds(EXTRA, st);
    ExtraInBounds(st);
    ExtraInBounds(Clamped(EXTRA, st));
  }

  lemma ExtraInBounds(st: Settings<ExtraField>)
    requires Typed(EXTRA, st)
    ensures CanonicalExtra(st) <==> InBounds(EXTRA, st)
  {
    assert forall f: ExtraField :: f in st.num && Num(st, f) == st.num[f];
  }

  lemma CleanLootCanonical(st: Settings<LootField>)
    requires Typed(LOOT, st)
    ensures Typed(LOOT, Clamped(LOOT, st)) && CanonicalLoot(Clamped(LOOT, st))
    ensures Clamped(LOOT, st) == st <==> CanonicalLoot(st)
  {
    LootWellFormed();
    ClampedInBounds(LOOT, st);
    LootInBounds(st);
    LootInBounds(Clamped(LOOT, st));
  }

  lemma LootInBounds(st: Settings<LootField>)
    requires Typed(LOOT, st)
    ensures CanonicalLoot(st) <==> InBounds(LOOT, st)
  {
  }

  lemma CleanRangeCanonical(st: Settings<RiftsField>)
    requires Typed(RIFTS, st)
    ensures Typed(RIFTS, CleanRifts(st)) && CanonicalRange(CleanRifts(st))
    ensures CleanRifts(st) == st <==> CanonicalRange(st)
  {
    RiftsWellFormed();
    ClampedInBounds(RIFTS, st);
    SortRangeTyped(Clamped(RIFTS, st));
    RangeInBounds(st);
    RangeInBounds(CleanRifts(st));
    SortRangeInOrder(Clamped(RIFTS, st));
  }

  lemma RangeInBounds(st: Settings<RiftsField>)
    requires Typed(RIFTS, st)
    ensures CanonicalRange(st) <==> InBounds(RIFTS, st) && Num(st, RangeStart) <= Num(st, RangeEnd)
  {
  }

  lemma SortRangeInOrder(st: Settings<RiftsField>)
    requires Typed(RIFTS, st)
    ensures InBounds(RIFTS, st) ==> InBounds(RIFTS, SortRange(st))
    ensures Num(SortRange(st), RangeStart) <= Num(SortRange(st), RangeEnd)
  {
  }

  lemma CleanEventsCanonical(c: Config)
    requires WellTyped(c)
    ensures WellFormed(SEASONS) && Typed(SEASONS, Clamped(SEASONS, c.seasons))
    ensures Typed(EVENTS, CleanEvents(c))
    ensures CanonicalEvents(c.mapMode, SeasonsField.Active in c.seasons.on,
      Num(Clamped(SEASONS, c.seasons), CurrentSeason), CleanEvents(c).on)
    ensures CleanEvents(c) == c.events <==>
      CanonicalEvents(c.mapMode, SeasonsField.Active in c.seasons.on,
        Num(Clamped(SEASONS, c.seasons), CurrentSeason), c.events.on)
  {
    SeasonsWellFormed();
    ClampedTyped(SEASONS, c.seasons);
    var active := SeasonsField.Active in c.seasons.on;
    var season := Num(Clamped(SEASONS, c.seasons), CurrentSeason);
    ClosedFlags(c.mapMode, active, season, c.events.on);
    MappedFlagsClosed(c.mapMode, active, season, c.events.on);
    SeasonMapTyped(c.mapMode, active, season, c.events);
  }

  // ----- the configuration as a whole

  lemma CleanGameTyped(devMem: bool, before: Config, c: Config)
    requires GameTyped(GameOf(c))
    requires 0 <= before.rankValue <= 2
    ensures GameTyped(GameOf(CleanOver(devMem, before, c)))
  {
    CleanSeasonCanonical(c.seasons);
    CleanRangeCanonical(c.rifts);
    SeasonMapTyped(c.mapMode, SeasonsField.Active in c.seasons.on, Num(Clamped(SEASONS, c.seasons), CurrentSeason),
      c.events);
    CleanExtraCanonical(c.extra);
    CleanLootCanonical(c.loot);
    CleanRankCanonical(c.rank, c.rankValue, before.rankValue);
  }

  lemma CleanSchemaTyped(devMem: bool, before: Config, c: Config)
    requires SchemaTyped(SchemaOf(c))
    ensures SchemaTyped(SchemaOf(CleanOver(devMem, before, c)))
  {
    CleanOutputCanonical(devMem, c.output);
  }

  /** Cleaning keeps the types of the fields and gives a canonical configuration. */
  lemma CleanIsCanonical(devMem: bool, before: Config, c: Config)
    requires WellTyped(c)
    requires 0 <= before.rankValue <= 2
    ensures WellTyped(CleanOver(devMem, before, c))
    ensures Canonical(devMem, CleanOver(devMem, before, c))
  {
    CleanGameTyped(devMem, before, c);
    CleanSchemaTyped(devMem, before, c);
    CleanSatisfiesCanonical(devMem, before, c);
  }

  lemma CleanSatisfiesCanonical(devMem: bool, before: Config, c: Config)
    requires WellTyped(c)
    requires 0 <= before.rankValue <= 2
    ensures Canonical(devMem, CleanOver(devMem, before, c))
  {
    CleanSeasonCanonical(c.seasons);
    CleanRangeCanonical(c.rifts);
    CleanEventsCanonical(c);
    CleanExtraCanonical(c.extra);
    CleanSpeedCanonical(c.moveSpeed);
    CleanSpeedCanonical(c.attackSpeed);
    CleanLootCanonical(c.loot);
    CleanRankCanonical(c.rank, c.rankValue, before.rankValue);
    CleanOutputCanonical(devMem, c.output);
  }

  lemma CanonicalIsClean(devMem: bool, before: Config, c: Config)
    requires WellTyped(c) && Canonical(devMem, c)
    ensures CleanOver(devMem, before, c) == c.(language := if c.language == "" then before.language else c.language)
  {
    CleanSeasonCanonical(c.seasons);
    CleanRangeCanonical(c.rifts);
    CleanEventsCanonical(c);
    CleanExtraCanonical(c.extra);
    CleanSpeedCanonical(c.moveSpeed);
    CleanSpeedCanonical(c.attackSpeed);
    CleanLootCanonical(c.loot);
    CleanRankCanonical(c.rank, c.rankValue, before.rankValue);
    CleanOutputCanonical(devMem, c.output);
  }

  /** `NormalizePatchConfig` is the direct cleaning over the defaults, and its results are canonical. */
  lemma NormalizeCleans(lib: Library, devMem: bool, c: Config)
    requires Exact(lib) && WellTyped(c)
    ensures Normalize(lib, devMem, c) == CleanOver(devMem, Defaults(), c)
    ensures WellTyped(Normalize(lib, devMem, c))
    ensures Canonical(devMem, Normalize(lib, devMem, c))
  {
    DefaultsWellTyped();
    WrittenThenApplied(lib, devMem, Defaults(), c);
    CleanIsCanonical(devMem, Defaults(), c);
  }

  /** The fixed points of normalisation are exactly the canonical configurations. */
  lemma NormalizeFixedPoints(lib: Library, devMem: bool, c: Config)
    requires Exact(lib) && WellTyped(c)
    ensures Normalize(lib, devMem, c) == c <==> Canonical(devMem, c)
  {
    NormalizeCleans(lib, devMem, c);
    if Canonical(devMem, c) {
      CanonicalIsClean(devMem, Defaults(), c);
    }
  }

  lemma DefaultNumbers()
    ensures CanonicalSeason(SEASONS_DEFAULT) && CanonicalRange(RIFTS_DEFAULT)
    ensures CanonicalExtra(EXTRA_DEFAULT) && CanonicalLoot(LOOT_DEFAULT)
    ensures CanonicalSpeed(2.5) && CanonicalSpeed(1.0) && CanonicalRank("Primal", 2)
    ensures forall devMem :: CanonicalOutput(devMem, OUTPUT_DEFAULT)
  {
    assert Steps(2.5, 0.1, 25) && Steps(1.0, 0.1, 10) && Steps(80.0, 5.0, 16);
  }

  lemma LoadedDefaultsCanonical(devMem: bool)
    ensures Canonical(devMem, Defaults().(initialized := true, defaultsOnly := false))
  {
    DefaultNumbers();
  }

  lemma LoadedDefaultsTyped()
    ensures WellTyped(Defaults().(initialized := true, defaultsOnly := false))
  {
    DefaultsWellTyped();
  }

  /** The built-in defaults, marked as loaded, are among them. */
  lemma DefaultsAreCanonical(lib: Library, devMem: bool, c: Config)
    requires Exact(lib)
    requires c == Defaults().(initialized := true, defaultsOnly := false)
    ensures Normalize(lib, devMem, c) == c
  {
    LoadedDefaultsTyped();
    LoadedDefaultsCanonical(devMem);
    NormalizeFixedPoints(lib, devMem, c);
  }

  /** Normalising twice is normalising once, for every configuration however far out of range. */
  lemma NormalizeIdempotent(lib: Library, devMem: bool, c: Config)
    requires Exact(lib) && WellTyped(c)
    ensures WellTyped(Normalize(lib, devMem, c))
    ensures Normalize(lib, devMem, Normalize(lib, devMem, c)) == Normalize(lib, devMem, c)
  {
    NormalizeCleans(lib, devMem, c);
    NormalizeFixedPoints(lib, devMem, Normalize(lib, devMem, c));
  }

  /** The tree `SavePatchConfigToPath` writes: normalised first, then built. */
  function SavedTable(lib: Library, devMem: bool, c: Config): Tab {
    BuildTable(Normalize(lib, devMem, c))
  }

  /**
   A saved file restores the normalised configuration whatever configuration it is applied to;
   only an empty language is not written and leaves the language there was.
   */
  lemma SaveThenLoad(lib: Library, devMem: bool, before: Config, c: Config)
    requires Exact(lib) && WellTyped(c) && WellTyped(before)
    ensures var n := Normalize(lib, devMem, c);
      Applied(lib, devMem, before, SavedTable(lib, devMem, c))
        == n.(language := if n.language == "" then before.language else n.language)
  {
    var n := Normalize(lib, devMem, c);
    NormalizeCleans(lib, devMem, c);
    WrittenThenApplied(lib, devMem, before, n);
    CanonicalIsClean(devMem, before, n);
  }
}
