/**
 `PatchConfig` of source/program/config.cpp and the schema of source/program/config_schema.cpp:
 the values, how a TOML tree is applied to them, and the tree they are written as.
 */
module PatchConfigs {
  import opened Options
  import opened Toml
  import opened Spelling
  import opened Settings
  import opened ConfigLayouts
  import opened LayoutAliases
  import opened SeasonEvents

  /** The value of a `PatchConfig` object. */
  datatype Config = Config(
    initialized: bool,
    defaultsOnly: bool,
    seasons: Settings<SeasonsField>,
    rifts: Settings<RiftsField>,
    events: Settings<EventsField>,
    mapMode: MapMode,
    extra: Settings<ExtraField>,
    cheats: Settings<CheatsField>,
    moveSpeed: real,
    attackSpeed: real,
    loot: Settings<LootField>,
    rank: string,
    rankValue: int,
    overlays: Settings<OverlaysField>,
    gui: Settings<GuiField>,
    language: string,
    debug: Settings<DebugField>,
    resolution: Settings<ResolutionField>,
    output: Output)

  /** The resolution settings that have setters of their own. */
  datatype Output = Output(target: int, handheldScale: real, minScale: real, maxScale: real, clampTexture: int)

  predicate IsU32(i: int) {
    0 <= i < 0x1_0000_0000
  }

  // ----- the two halves

  /** The settings that `PatchConfig::ApplyTable` reads itself. */
  datatype GameValue = GameValue(
    seasons: Settings<SeasonsField>,
    rifts: Settings<RiftsField>,
    events: Settings<EventsField>,
    mapMode: MapMode,
    extra: Settings<ExtraField>,
    cheats: Settings<CheatsField>,
    moveSpeed: real,
    attackSpeed: real,
    loot: Settings<LootField>,
    rank: string,
    rankValue: int)

  /** The settings read by the schema table. */
  datatype SchemaValue = SchemaValue(
    overlays: Settings<OverlaysField>,
    gui: Settings<GuiField>,
    language: string,
    debug: Settings<DebugField>,
    resolution: Settings<ResolutionField>,
    output: Output)

  /** A configuration from its two halves. */
  function Whole(initialized: bool, defaultsOnly: bool, g: GameValue, s: SchemaValue): Config {
    Config(initialized, defaultsOnly, g.seasons, g.rifts, g.events, g.mapMode, g.extra, g.cheats, g.moveSpeed,
      g.attackSpeed, g.loot, g.rank, g.rankValue, s.overlays, s.gui, s.language, s.debug, s.resolution, s.output)
  }

  function GameOf(c: Config): GameValue {
    GameValue(c.seasons, c.rifts, c.events, c.mapMode, c.extra, c.cheats, c.moveSpeed, c.attackSpeed, c.loot, c.rank,
      c.rankValue)
  }

  function SchemaOf(c: Config): SchemaValue {
    SchemaValue(c.overlays, c.gui, c.language, c.debug, c.resolution, c.output)
  }

  ghost predicate GameTyped(v: GameValue) {
    && Typed(SEASONS, v.seasons) && Typed(RIFTS, v.rifts) && Typed(EVENTS, v.events) && Typed(EXTRA, v.extra)
    && Typed(CHEATS, v.cheats) && Typed(LOOT, v.loot) && Is32Bit(v.rankValue)
  }

  ghost predicate SchemaTyped(v: SchemaValue) {
    && Typed(OVERLAYS, v.overlays) && Typed(GUI, v.gui) && Typed(DEBUG, v.debug) && Typed(RESOLUTION, v.resolution)
    && IsU32(v.output.target) && IsU32(v.output.clampTexture)
  }

  /** The fields hold values of their C++ types. */
  ghost predicate WellTyped(c: Config) {
    GameTyped(GameOf(c)) && SchemaTyped(SchemaOf(c))
  }

  // ----- the defaults

  const SEASONS_DEFAULT: Settings<SeasonsField> := Settings({SeasonsField.Active}, map[CurrentSeason := 30])
  const RIFTS_DEFAULT: Settings<RiftsField> := Settings({Random}, map[RangeStart := 0, RangeEnd := 20])
  const EVENTS_DEFAULT: Settings<EventsField> := Settings(
    {EventsField.Active, DoubleRiftKeystones, DoubleBloodShards, DoubleTreasureGoblins, DoubleBountyBags,
      DarkAlchemy}, map[])
  const EXTRA_DEFAULT: Settings<ExtraField> := Settings({}, map f: ExtraField | true :: UNSET)
  const CHEATS_DEFAULT: Settings<CheatsField> := Settings(
    {CheatsField.Active, InstantPortal, InstantCraftActions, UnlockAllDifficulties, InfiniteMp, GemUpgradeSpeed,
      EquipMultiLegendary}, map[])
  const LOOT_DEFAULT: Settings<LootField> := Settings({SuppressGiftGeneration},
    map[ForcedILevel := 0, TieredLootRunLevel := 0])
  const OVERLAYS_DEFAULT: Settings<OverlaysField> := Settings({OverlaysField.Active, DdmLabels, VarResLabel}, map[])
  const GUI_DEFAULT: Settings<GuiField> := Settings({Enabled}, map[])
  const DEBUG_DEFAULT: Settings<DebugField> := Settings({DebugField.Active, EnableErrorTraces}, map[])
  const RESOLUTION_DEFAULT: Settings<ResolutionField> := Settings({ResolutionField.Active, ExpScheduler}, map[])

  const OUTPUT_DEFAULT := Output(1080, 80.0, 85.0, 100.0, 1152)

  /** A default-constructed `PatchConfig`. */
  function Defaults(): Config {
    Config(
      false, true,
      SEASONS_DEFAULT, RIFTS_DEFAULT, EVENTS_DEFAULT, Disabled, EXTRA_DEFAULT, CHEATS_DEFAULT, 2.5, 1.0,
      LOOT_DEFAULT, "Primal", 2, OVERLAYS_DEFAULT, GUI_DEFAULT, "", DEBUG_DEFAULT, RESOLUTION_DEFAULT,
      OUTPUT_DEFAULT)
  }

  lemma SeasonsDefaultTyped()
    ensures Typed(SEASONS, SEASONS_DEFAULT)
  {
  }

  lemma RiftsDefaultTyped()
    ensures Typed(RIFTS, RIFTS_DEFAULT)
  {
  }

  lemma EventsDefaultTyped()
    ensures Typed(EVENTS, EVENTS_DEFAULT)
  {
  }

  lemma ExtraDefaultTyped()
    ensures Typed(EXTRA, EXTRA_DEFAULT)
  {
  }

  lemma CheatsDefaultTyped()
    ensures Typed(CHEATS, CHEATS_DEFAULT)
  {
  }

  lemma LootDefaultTyped()
    ensures Typed(LOOT, LOOT_DEFAULT)
  {
  }

  lemma OverlaysDefaultTyped()
    ensures Typed(OVERLAYS, OVERLAYS_DEFAULT)
  {
  }

  lemma GuiDefaultTyped()
    ensures Typed(GUI, GUI_DEFAULT)
  {
  }

  lemma DebugDefaultTyped()
    ensures Typed(DEBUG, DEBUG_DEFAULT)
  {
  }

  lemma ResolutionDefaultTyped()
    ensures Typed(RESOLUTION, RESOLUTION_DEFAULT)
  {
  }

  lemma DefaultsWellTyped()
    ensures WellTyped(Defaults())
  {
    SeasonsDefaultTyped();
    RiftsDefaultTyped();
    EventsDefaultTyped();
    ExtraDefaultTyped();
    CheatsDefaultTyped();
    LootDefaultTyped();
    OverlaysDefaultTyped();
    GuiDefaultTyped();
    DebugDefaultTyped();
    ResolutionDefaultTyped();
  }

  // ----- rounding

  /** `std::round`: to the nearest integer, halves away from zero. */
  function RoundHalfAway(v: real): int {
    if v >= 0.0 then (v + 0.5).Floor else -((-v + 0.5).Floor)
  }

  function Round1Decimal(v: real): real {
    RoundHalfAway(v * 10.0) as real / 10.0
  }

  function Min(a: int, b: int): int {
    if b < a then b else a
  }

  // ----- readers of the special fields

  function ReadString(lib: Library, t: Tab, keys: seq<string>, fallback: string): string {
    ReadValue(t, keys, lib.asString).GetOr(fallback)
  }

  /** A string wins over a boolean, whatever their places in the alias list. */
  function ReadMapMode(lib: Library, t: Tab, keys: seq<string>, fallback: MapMode): MapMode {
    match ReadValue(t, keys, lib.asString)
    case Some(s) => ParseMapMode(s, fallback)
    case None =>
      match ReadValue(t, keys, lib.asBool)
      case Some(b) => if b then MapOnly else Disabled
      case None => fallback
  }

  /** The digits of an unsigned number, as `std::from_chars` reads a whole string; none if it is not one. */
  function ParseDigits(s: string): Option<nat> {
    if s == "" then None
    else
      var c := s[|s| - 1];
      if !('0' <= c <= '9') then None
      else
        var d := c as int - '0' as int;
        if |s| == 1 then Some(d)
        else
          match ParseDigits(s[..|s| - 1])
          case None => None
          case Some(n) => Some(10 * n + d)
  }

  function ParseOutputTarget(input: string, fallback: int): int {
    var normalized := NormalizeKey(input);
    if normalized == "" then fallback
    else if normalized == "default" || normalized == "unchanged" then 900
    else if normalized == "720" || normalized == "720p" then 720
    else if normalized == "900" || normalized == "900p" then 900
    else if normalized == "1080" || normalized == "1080p" || normalized == "fhd" then 1080
    else if normalized == "1440" || normalized == "1440p" || normalized == "2k" || normalized == "qhd" then 1440
    else if normalized == "2160" || normalized == "2160p" || normalized == "4k" || normalized == "uhd" then 2160
    else
      match ParseDigits(normalized)
      case Some(n) => if 0 < n && IsU32(n) then n else fallback
      case None => fallback
  }

  /** The largest output target; it depends on the memory mode of the console. */
  function MaxTarget(devMem: bool): int {
    if devMem then 2160 else 1440
  }

  function SetTarget(devMem: bool, v: int): int {
    Min(v, MaxTarget(devMem))
  }

  function ReadTarget(lib: Library, devMem: bool, t: Tab, current: int): (r: int)
    ensures IsU32(current) ==> IsU32(r)
  {
    var keys := ResolutionRow(OutputTarget).aliases;
    match ReadNumber(lib, t, keys)
    case Some(v) =>
      TruncateInBounds(v, 720, 2160);
      SetTarget(devMem, Truncate(ClampReal(v, 720.0, 2160.0)))
    case None =>
      match ReadValue(t, keys, lib.asString)
      case Some(s) => SetTarget(devMem, ParseOutputTarget(s, current))
      case None => current
  }

  function NormalizeHandheldScale(v: real): real {
    if v <= 0.0 then 0.0
    else
      var clamped := ClampReal(v, 40.0, 100.0);
      ClampReal(RoundHalfAway(clamped / 5.0) as real * 5.0, 40.0, 100.0)
  }

  /** A fraction in (0, 1] is taken as a share of one hundred percent. */
  function SetHandheldScale(v: real): real {
    NormalizeHandheldScale(if 0.0 < v <= 1.0 then v * 100.0 else v)
  }

  function ReadHandheldScale(lib: Library, t: Tab, current: real): real {
    match ReadNumber(lib, t, ResolutionRow(OutputHandheldScale).aliases)
    case None => current
    case Some(v) => SetHandheldScale(ClampReal(v, 0.0, 100.0))
  }

  /** Setting one end of the scale range drags the other end along when they would cross. */
  function SetMinScale(v: real, range: (real, real)): (real, real) {
    var lo := ClampReal(v, 10.0, 100.0);
    (lo, if range.1 < lo then lo else range.1)
  }

  function SetMaxScale(v: real, range: (real, real)): (real, real) {
    var hi := ClampReal(v, 10.0, 100.0);
    (if hi < range.0 then hi else range.0, hi)
  }

  function ReadScales(lib: Library, t: Tab, range: (real, real)): (real, real) {
    var r1 :=
      match ReadNumber(lib, t, ResolutionRow(MinResScale).aliases)
      case None => range
      case Some(v) => SetMinScale(ClampReal(v, 10.0, 100.0), range);
    match ReadNumber(lib, t, ResolutionRow(MaxResScale).aliases)
    case None => r1
    case Some(v) => SetMaxScale(ClampReal(v, 10.0, 100.0), r1)
  }

  function SetClampTexture(v: int): int {
    if v == 0 then 0 else ClampInt(v, 100, 9999)
  }

  function ReadClampTexture(lib: Library, t: Tab, current: int): (r: int)
    ensures IsU32(current) ==> IsU32(r)
  {
    match ReadNumber(lib, t, ResolutionRow(ClampTextureResolution).aliases)
    case None => current
    case Some(v) =>
      TruncateInBounds(v, 0, 9999);
      SetClampTexture(Truncate(ClampReal(v, 0.0, 9999.0)))
  }

  // ----- applying a tree

  /** The ends of the rift range, swapped when they cross. */
  function SortRange(st: Settings<RiftsField>): Settings<RiftsField> {
    if Num(st, RangeStart) > Num(st, RangeEnd)
    then st.(num := st.num[RangeStart := Num(st, RangeEnd)][RangeEnd := Num(st, RangeStart)])
    else st
  }

  function ApplyRifts(lib: Library, section: Option<Tab>, st: Settings<RiftsField>): Settings<RiftsField> {
    match section
    case None => st
    case Some(_) => SortRange(ReadSettings(lib, RIFTS, section, st))
  }

  function FindExtra(resolution: Option<Tab>): Option<Tab> {
    match resolution
    case None => None
    case Some(t) => FindTable(t, "extra")
  }

  function ApplySpeed(lib: Library, section: Option<Tab>, f: CheatsField, current: real): real {
    match section
    case None => current
    case Some(t) => ReadDouble(lib, t, CheatsRow(f).aliases, current, 0.1, 10.0)
  }

  function ApplyMapMode(lib: Library, section: Option<Tab>, current: MapMode): MapMode {
    match section
    case None => current
    case Some(t) => ReadMapMode(lib, t, EventsRow(SeasonMapMode).aliases, current)
  }

  /** The rank string is read, turned into a value, and replaced by the canonical name of that value. */
  function ResolveRank(text: string, value: int): (string, int) {
    var newValue := AncientRankToValue(text, value);
    (AncientRankCanonical(newValue, text), newValue)
  }

  function ApplyRank(lib: Library, section: Option<Tab>, rank: (string, int)): (r: (string, int))
    ensures r.1 == rank.1 || 0 <= r.1 <= 2
  {
    match section
    case None => rank
    case Some(t) => ResolveRank(ReadString(lib, t, LootRow(AncientRank).aliases, rank.0), rank.1)
  }

  function ApplyLanguage(lib: Library, section: Option<Tab>, current: string): string {
    match section
    case None => current
    case Some(t) => ReadString(lib, t, GuiRow(Language).aliases, current)
  }

  function ApplyOutput(lib: Library, devMem: bool, section: Option<Tab>, current: Output): (r: Output)
    ensures IsU32(current.target) && IsU32(current.clampTexture) ==> IsU32(r.target) && IsU32(r.clampTexture)
  {
    match section
    case None => current
    case Some(t) =>
      var scales := ReadScales(lib, t, (current.minScale, current.maxScale));
      Output(
        ReadTarget(lib, devMem, t, current.target),
        ReadHandheldScale(lib, t, current.handheldScale),
        scales.0,
        scales.1,
        ReadClampTexture(lib, t, current.clampTexture))
  }

  /** The events section, with the season map applied last. */
  function ApplyEvents(lib: Library, section: Option<Tab>, mode: MapMode, seasons: Settings<SeasonsField>,
      st: Settings<EventsField>)
    : Settings<EventsField>
  {
    var read := ReadSettings(lib, EVENTS, section, st);
    read.(on := ApplySeasonMap(mode, SeasonsField.Active in seasons.on, Num(seasons, CurrentSeason), read.on))
  }

  /** The tables a root gives for the sections; none where the key is missing or holds something else. */
  datatype Sections = Sections(
    seasons: Option<Tab>, rifts: Option<Tab>, events: Option<Tab>, cheats: Option<Tab>, loot: Option<Tab>,
    overlays: Option<Tab>, gui: Option<Tab>, debug: Option<Tab>, resolution: Option<Tab>)

  function SectionsOf(root: Tab): Sections {
    Sections(
      FindTable(root, "seasons"), FindTable(root, "challenge_rifts"), FindTable(root, "events"),
      FindTable(root, "rare_cheats"), FindTable(root, "loot_modifiers"), FindTable(root, "overlays"),
      FindTable(root, "gui"), FindTable(root, "debug"), FindTable(root, "resolution_hack"))
  }

  /** What the schema table makes of its settings. */
  function AppliedSchema(lib: Library, devMem: bool, v: SchemaValue, t: Sections): SchemaValue {
    SchemaValue(
      ReadSettings(lib, OVERLAYS, t.overlays, v.overlays),
      ReadSettings(lib, GUI, t.gui, v.gui),
      ApplyLanguage(lib, t.gui, v.language),
      ReadSettings(lib, DEBUG, t.debug, v.debug),
      ReadSettings(lib, RESOLUTION, t.resolution, v.resolution),
      ApplyOutput(lib, devMem, t.resolution, v.output))
  }

  /** What the rest of `PatchConfig::ApplyTable` makes of its own; the season map comes last. */
  function AppliedGame(lib: Library, v: GameValue, t: Sections): GameValue {
    var seasons := ReadSettings(lib, SEASONS, t.seasons, v.seasons);
    var mapMode := ApplyMapMode(lib, t.events, v.mapMode);
    var rank := ApplyRank(lib, t.loot, (v.rank, v.rankValue));
    GameValue(
      seasons,
      ApplyRifts(lib, t.rifts, v.rifts),
      ApplyEvents(lib, t.events, mapMode, seasons, v.events),
      mapMode,
      ReadSettings(lib, EXTRA, FindExtra(t.resolution), v.extra),
      ReadSettings(lib, CHEATS, t.cheats, v.cheats),
      ApplySpeed(lib, t.cheats, MoveSpeed, v.moveSpeed),
      ApplySpeed(lib, t.cheats, AttackSpeed, v.attackSpeed),
      ReadSettings(lib, LOOT, t.loot, v.loot),
      rank.0,
      rank.1)
  }

  function AppliedSections(lib: Library, devMem: bool, c: Config, t: Sections): Config {
    Whole(true, false, AppliedGame(lib, GameOf(c), t), AppliedSchema(lib, devMem, SchemaOf(c), t))
  }

  /** `PatchConfig::ApplyTable`. */
  function Applied(lib: Library, devMem: bool, c: Config, root: Tab): Config {
    AppliedSections(lib, devMem, c, SectionsOf(root))
  }

  // ----- fields keep their types

  lemma SortRangeTyped(st: Settings<RiftsField>)
    requires Typed(RIFTS, st)
    ensures Typed(RIFTS, SortRange(st))
  {
  }

  lemma RiftsTyped(lib: Library, section: Option<Tab>, st: Settings<RiftsField>)
    requires Typed(RIFTS, st)
    ensures Typed(RIFTS, ApplyRifts(lib, section, st))
  {
    RiftsWellFormed();
    if section.Some? {
      var read := ReadSettings(lib, RIFTS, section, st);
      ReadSettingsTyped(lib, RIFTS, section, st);
      SortRangeTyped(read);
    }
  }

  lemma SeasonMapTyped(mode: MapMode, active: bool, season: int, st: Settings<EventsField>)
    requires Typed(EVENTS, st)
    ensures Typed(EVENTS, st.(on := ApplySeasonMap(mode, active, season, st.on)))
  {
  }

  lemma EventsTyped(lib: Library, section: Option<Tab>, mode: MapMode, seasons: Settings<SeasonsField>,
      st: Settings<EventsField>)
    requires Typed(EVENTS, st)
    ensures Typed(EVENTS, ApplyEvents(lib, section, mode, seasons, st))
  {
  }

  lemma AppliedGameTyped(lib: Library, v: GameValue, t: Sections)
    requires GameTyped(v)
    ensures GameTyped(AppliedGame(lib, v, t))
  {
    LayoutsWellFormed();
    ReadSettingsTyped(lib, SEASONS, t.seasons, v.seasons);
    RiftsTyped(lib, t.rifts, v.rifts);
    var a := AppliedGame(lib, v, t);
    EventsTyped(lib, t.events, a.mapMode, a.seasons, v.events);
    ReadSettingsTyped(lib, EXTRA, FindExtra(t.resolution), v.extra);
    ReadSettingsTyped(lib, CHEATS, t.cheats, v.cheats);
    ReadSettingsTyped(lib, LOOT, t.loot, v.loot);
  }

  lemma AppliedSchemaTyped(lib: Library, devMem: bool, v: SchemaValue, t: Sections)
    requires SchemaTyped(v)
    ensures SchemaTyped(AppliedSchema(lib, devMem, v, t))
  {
    LayoutsWellFormed();
    ReadSettingsTyped(lib, OVERLAYS, t.overlays, v.overlays);
    ReadSettingsTyped(lib, GUI, t.gui, v.gui);
    ReadSettingsTyped(lib, DEBUG, t.debug, v.debug);
    ReadSettingsTyped(lib, RESOLUTION, t.resolution, v.resolution);
  }

  lemma AppliedWellTyped(lib: Library, devMem: bool, c: Config, root: Tab)
    requires WellTyped(c)
    ensures WellTyped(Applied(lib, devMem, c, root))
  {
    AppliedGameTyped(lib, GameOf(c), SectionsOf(root));
    AppliedSchemaTyped(lib, devMem, SchemaOf(c), SectionsOf(root));
  }

  // ----- writing a tree

  function EventsSpecials(mode: MapMode): map<EventsField, Node> {
    map[SeasonMapMode := Str(MapModeToString(mode))]
  }

  function CheatsSpecials(moveSpeed: real, attackSpeed: real): map<CheatsField, Node> {
    map[MoveSpeed := Float(Round1Decimal(moveSpeed)), AttackSpeed := Float(Round1Decimal(attackSpeed))]
  }

  function LootSpecials(rank: string, value: int): map<LootField, Node> {
    map[AncientRank := Str(AncientRankCanonical(value, rank))]
  }

  /** The language is left out when it is empty. */
  function GuiSpecials(language: string): map<GuiField, Node> {
    if language == "" then map[] else map[Language := Str(language)]
  }

  function ResolutionSpecials(extra: Tab, o: Output): map<ResolutionField, Node> {
    map[
      ExtraTable := Table(extra),
      OutputTarget := Int(o.target),
      OutputHandheldScale := Float(o.handheldScale),
      MinResScale := Float(o.minScale),
      MaxResScale := Float(o.maxScale),
      ClampTextureResolution := Int(o.clampTexture)]
  }

  /** The root table with its nine sections. */
  function Root(resolution: Node, seasons: Node, rifts: Node, events: Node, cheats: Node, loot: Node,
                overlays: Node, gui: Node, debug: Node): Tab
  {
    map[
      "resolution_hack" := resolution,
      "seasons" := seasons,
      "challenge_rifts" := rifts,
      "events" := events,
      "rare_cheats" := cheats,
      "loot_modifiers" := loot,
      "overlays" := overlays,
      "gui" := gui,
      "debug" := debug]
  }

  /** `BuildPatchConfigTable`. */
  function BuildTable(c: Config): Tab {
    LayoutsWellFormed();
    Root(
      Table(Written(RESOLUTION, c.resolution, ResolutionSpecials(Written(EXTRA, c.extra, map[]), c.output))),
      Table(Written(SEASONS, c.seasons, map[])),
      Table(Written(RIFTS, c.rifts, map[])),
      Table(Written(EVENTS, c.events, EventsSpecials(c.mapMode))),
      Table(Written(CHEATS, c.cheats, CheatsSpecials(c.moveSpeed, c.attackSpeed))),
      Table(Written(LOOT, c.loot, LootSpecials(c.rank, c.rankValue))),
      Table(Written(OVERLAYS, c.overlays, map[])),
      Table(Written(GUI, c.gui, GuiSpecials(c.language))),
      Table(Written(DEBUG, c.debug, map[])))
  }

  /** `NormalizePatchConfig`: write the configuration and read it back over the defaults. */
  function Normalize(lib: Library, devMem: bool, c: Config): Config {
    Applied(lib, devMem, Defaults(), BuildTable(c))
  }
}
