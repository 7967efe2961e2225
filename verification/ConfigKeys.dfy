/** Which keys of a TOML tree matter to a configuration: the result depends only on what the aliases read. */
module ConfigKeys {
  import opened Options
  import opened Toml
  import opened Spelling
  import opened Settings
  import opened ConfigLayouts
  import opened LayoutAliases
  import opened PatchConfigs

  /** Two tables give the same under one conversion. */
  ghost predicate SameBy(lib: Library, how: Conversion, keys: seq<string>, t: Tab, u: Tab) {
    match how
    case ToBool => ReadValue(t, keys, lib.asBool) == ReadValue(u, keys, lib.asBool)
    case ToNumber => ReadNumber(lib, t, keys) == ReadNumber(lib, u, keys)
    case ToText => ReadValue(t, keys, lib.asString) == ReadValue(u, keys, lib.asString)
  }

  predicate ReadsNothing(lib: Library, how: Conversion, keys: seq<string>, t: Tab) {
    match how
    case ToBool => ReadValue(t, keys, lib.asBool).None?
    case ToNumber => ReadNumber(lib, t, keys).None?
    case ToText => ReadValue(t, keys, lib.asString).None?
  }

  /** Two tables read alike through one alias list, under conversions that are tried in turn. */
  ghost predicate ReadAlike(lib: Library, tried: seq<Conversion>, keys: seq<string>, t: Tab, u: Tab) {
    tried == [] ||
    (SameBy(lib, tried[0], keys, t, u) &&
     (ReadsNothing(lib, tried[0], keys, t) ==> ReadAlike(lib, tried[1..], keys, t, u)))
  }

  /** Two sections, either both absent or read alike for every field. */
  ghost predicate SectionsAlike<F(!new)>(lib: Library, l: Layout<F>, t: Option<Tab>, u: Option<Tab>) {
    && (t.Some? <==> u.Some?)
    && (t.Some? ==> forall f :: f in l.all ==>
          ReadAlike(lib, l.kind(f).Conversions(), l.row(f).aliases, t.value, u.value))
  }

  /** All sections alike; the `extra` table is compared by its own fields and not as a whole. */
  ghost predicate RootsAlike(lib: Library, t: Sections, u: Sections) {
    && SectionsAlike(lib, SEASONS, t.seasons, u.seasons)
    && SectionsAlike(lib, RIFTS, t.rifts, u.rifts)
    && SectionsAlike(lib, EVENTS, t.events, u.events)
    && SectionsAlike(lib, CHEATS, t.cheats, u.cheats)
    && SectionsAlike(lib, LOOT, t.loot, u.loot)
    && SectionsAlike(lib, OVERLAYS, t.overlays, u.overlays)
    && SectionsAlike(lib, GUI, t.gui, u.gui)
    && SectionsAlike(lib, DEBUG, t.debug, u.debug)
    && SectionsAlike(lib, RESOLUTION, t.resolution, u.resolution)
    && SectionsAlike(lib, EXTRA, FindExtra(t.resolution), FindExtra(u.resolution))
  }

  lemma SettingsAlike<F(!new)>(lib: Library, l: Layout<F>, t: Option<Tab>, u: Option<Tab>, st: Settings<F>)
    requires SectionsAlike(lib, l, t, u)
    ensures ReadSettings(lib, l, t, st) == ReadSettings(lib, l, u, st)
  {
  }

  /** What alike means for the number of conversions that fields have. */
  lemma AlikeByOne(lib: Library, how: Conversion, keys: seq<string>, t: Tab, u: Tab)
    requires ReadAlike(lib, [how], keys, t, u)
    ensures SameBy(lib, how, keys, t, u)
  {
  }

  lemma AlikeByTwo(lib: Library, how: Conversion, then_: Conversion, keys: seq<string>, t: Tab, u: Tab)
    requires ReadAlike(lib, [how, then_], keys, t, u)
    ensures SameBy(lib, how, keys, t, u)
    ensures ReadsNothing(lib, how, keys, t) ==> SameBy(lib, then_, keys, t, u)
  {
    assert [how, then_][1..] == [then_];
  }

  lemma OutputAlike(lib: Library, devMem: bool, t: Option<Tab>, u: Option<Tab>, o: Output)
    requires SectionsAlike(lib, RESOLUTION, t, u)
    ensures ApplyOutput(lib, devMem, t, o) == ApplyOutput(lib, devMem, u, o)
  {
    if t.Some? {
      AlikeByTwo(lib, ToNumber, ToText, ResolutionRow(OutputTarget).aliases, t.value, u.value) by {
        assert OutputTarget in RESOLUTION.all;
      }
      forall f | f in {OutputHandheldScale, MinResScale, MaxResScale, ClampTextureResolution}
        ensures SameBy(lib, ToNumber, ResolutionRow(f).aliases, t.value, u.value)
      {
        assert f in RESOLUTION.all;
        AlikeByOne(lib, ToNumber, ResolutionRow(f).aliases, t.value, u.value);
      }
      assert OutputHandheldScale in {OutputHandheldScale, MinResScale, MaxResScale, ClampTextureResolution};
    }
  }

  lemma SpecialsAlike(lib: Library, t: Sections, u: Sections, c: Config)
    requires RootsAlike(lib, t, u)
    ensures ApplyMapMode(lib, t.events, c.mapMode) == ApplyMapMode(lib, u.events, c.mapMode)
    ensures ApplySpeed(lib, t.cheats, MoveSpeed, c.moveSpeed) == ApplySpeed(lib, u.cheats, MoveSpeed, c.moveSpeed)
    ensures ApplySpeed(lib, t.cheats, AttackSpeed, c.attackSpeed)
         == ApplySpeed(lib, u.cheats, AttackSpeed, c.attackSpeed)
    ensures ApplyRank(lib, t.loot, (c.rank, c.rankValue)) == ApplyRank(lib, u.loot, (c.rank, c.rankValue))
    ensures ApplyLanguage(lib, t.gui, c.language) == ApplyLanguage(lib, u.gui, c.language)
  {
    assert SeasonMapMode in EVENTS.all && MoveSpeed in CHEATS.all && AttackSpeed in CHEATS.all;
    assert AncientRank in LOOT.all && Language in GUI.all;
    if t.events.Some? {
      AlikeByTwo(lib, ToText, ToBool, EventsRow(SeasonMapMode).aliases, t.events.value, u.events.value);
    }
    if t.cheats.Some? {
      AlikeByOne(lib, ToNumber, CheatsRow(MoveSpeed).aliases, t.cheats.value, u.cheats.value);
      AlikeByOne(lib, ToNumber, CheatsRow(AttackSpeed).aliases, t.cheats.value, u.cheats.value);
    }
    if t.loot.Some? {
      AlikeByOne(lib, ToText, LootRow(AncientRank).aliases, t.loot.value, u.loot.value);
    }
    if t.gui.Some? {
      AlikeByOne(lib, ToText, GuiRow(Language).aliases, t.gui.value, u.gui.value);
    }
  }

  lemma GameplayByReadings(lib: Library, devMem: bool, c: Config, t: Sections, u: Sections)
    requires RootsAlike(lib, t, u)
    ensures var (a, b) := (AppliedSections(lib, devMem, c, t), AppliedSections(lib, devMem, c, u));
      && a.seasons == b.seasons && a.rifts == b.rifts && a.events == b.events && a.mapMode == b.mapMode
      && a.cheats == b.cheats && a.moveSpeed == b.moveSpeed && a.attackSpeed == b.attackSpeed
      && a.loot == b.loot && a.rank == b.rank && a.rankValue == b.rankValue
  {
    SettingsAlike(lib, SEASONS, t.seasons, u.seasons, c.seasons);
    SettingsAlike(lib, RIFTS, t.rifts, u.rifts, c.rifts);
    SettingsAlike(lib, EVENTS, t.events, u.events, c.events);
    SettingsAlike(lib, CHEATS, t.cheats, u.cheats, c.cheats);
    SettingsAlike(lib, LOOT, t.loot, u.loot, c.loot);
    SpecialsAlike(lib, t, u, c);
  }

  lemma DisplayByReadings(lib: Library, devMem: bool, c: Config, t: Sections, u: Sections)
    requires RootsAlike(lib, t, u)
    ensures var (a, b) := (AppliedSections(lib, devMem, c, t), AppliedSections(lib, devMem, c, u));
      && a.extra == b.extra && a.overlays == b.overlays && a.gui == b.gui && a.language == b.language
      && a.debug == b.debug && a.resolution == b.resolution && a.output == b.output
  {
    SettingsAlike(lib, EXTRA, FindExtra(t.resolution), FindExtra(u.resolution), c.extra);
    SettingsAlike(lib, OVERLAYS, t.overlays, u.overlays, c.overlays);
    SettingsAlike(lib, GUI, t.gui, u.gui, c.gui);
    SettingsAlike(lib, DEBUG, t.debug, u.debug, c.debug);
    SettingsAlike(lib, RESOLUTION, t.resolution, u.resolution, c.resolution);
    OutputAlike(lib, devMem, t.resolution, u.resolution, c.output);
    SpecialsAlike(lib, t, u, c);
  }

  /** Trees whose aliases read alike give the same configuration. */
  lemma AppliedByReadings(lib: Library, devMem: bool, c: Config, t: Tab, u: Tab)
    requires RootsAlike(lib, SectionsOf(t), SectionsOf(u))
    ensures Applied(lib, devMem, c, t) == Applied(lib, devMem, c, u)
  {
    GameplayByReadings(lib, devMem, c, SectionsOf(t), SectionsOf(u));
    DisplayByReadings(lib, devMem, c, SectionsOf(t), SectionsOf(u));
  }

  // ----- keys that do not matter

  /** The tables hold the same under every alias of a field that is read; any other key is free. */
  ghost predicate SameKnownKeys<F(!new)>(l: Layout<F>, t: Option<Tab>, u: Option<Tab>) {
    && (t.Some? <==> u.Some?)
    && (t.Some? ==> forall f, k :: f in l.all && l.kind(f).Conversions() != [] && k in l.row(f).aliases ==>
          SameEntry(t.value, u.value, k))
  }

  predicate SameEntry(t: Tab, u: Tab, k: string) {
    (k in t <==> k in u) && (k in t ==> t[k] == u[k])
  }

  lemma {:induction false} SameKeysReadAlike(lib: Library, tried: seq<Conversion>, keys: seq<string>, t: Tab, u: Tab)
    requires forall k :: k in keys ==> SameEntry(t, u, k)
    ensures ReadAlike(lib, tried, keys, t, u)
  {
    if tried != [] {
      SameAliasesSameValue(t, u, keys, lib.asBool);
      SameAliasesSameValue(t, u, keys, lib.asString);
      SameAliasesSameValue(t, u, keys, n => lib.AsNumber(n));
      SameKeysReadAlike(lib, tried[1..], keys, t, u);
    }
  }

  lemma KnownKeysDecide<F(!new)>(lib: Library, l: Layout<F>, t: Option<Tab>, u: Option<Tab>)
    requires SameKnownKeys(l, t, u)
    ensures SectionsAlike(lib, l, t, u)
  {
    if t.Some? {
      forall f | f in l.all ensures ReadAlike(lib, l.kind(f).Conversions(), l.row(f).aliases, t.value, u.value) {
        if l.kind(f).Conversions() != [] {
          SameKeysReadAlike(lib, l.kind(f).Conversions(), l.row(f).aliases, t.value, u.value);
        }
      }
    }
  }

  /** Keys unknown to the program, at any level of the tree, never affect the configuration. */
  lemma UnknownKeysIgnored(lib: Library, devMem: bool, c: Config, t: Tab, u: Tab)
    requires var (a, b) := (SectionsOf(t), SectionsOf(u));
      && SameKnownKeys(SEASONS, a.seasons, b.seasons)
      && SameKnownKeys(RIFTS, a.rifts, b.rifts)
      && SameKnownKeys(EVENTS, a.events, b.events)
      && SameKnownKeys(CHEATS, a.cheats, b.cheats)
      && SameKnownKeys(LOOT, a.loot, b.loot)
      && SameKnownKeys(OVERLAYS, a.overlays, b.overlays)
      && SameKnownKeys(GUI, a.gui, b.gui)
      && SameKnownKeys(DEBUG, a.debug, b.debug)
      && SameKnownKeys(RESOLUTION, a.resolution, b.resolution)
      && SameKnownKeys(EXTRA, FindExtra(a.resolution), FindExtra(b.resolution))
    ensures Applied(lib, devMem, c, t) == Applied(lib, devMem, c, u)
  {
    var (a, b) := (SectionsOf(t), SectionsOf(u));
    KnownKeysDecide(lib, SEASONS, a.seasons, b.seasons);
    KnownKeysDecide(lib, RIFTS, a.rifts, b.rifts);
    KnownKeysDecide(lib, EVENTS, a.events, b.events);
    KnownKeysDecide(lib, CHEATS, a.cheats, b.cheats);
    KnownKeysDecide(lib, LOOT, a.loot, b.loot);
    KnownKeysDecide(lib, OVERLAYS, a.overlays, b.overlays);
    KnownKeysDecide(lib, GUI, a.gui, b.gui);
    KnownKeysDecide(lib, DEBUG, a.debug, b.debug);
    KnownKeysDecide(lib, RESOLUTION, a.resolution, b.resolution);
    KnownKeysDecide(lib, EXTRA, FindExtra(a.resolution), FindExtra(b.resolution));
    AppliedByReadings(lib, devMem, c, t, u);
  }

  /** The value of alias `i` may move to alias `j` as far as one conversion is concerned. */
  ghost predicate MovableBy(lib: Library, how: Conversion, t: Tab, keys: seq<string>, i: nat, j: nat) {
    match how
    case ToBool => Movable(t, keys, lib.asBool, i, j)
    case ToNumber => Movable(t, keys, (n: Node) => lib.AsNumber(n), i, j)
    case ToText => Movable(t, keys, lib.asString, i, j)
  }

  /** It may move: under every conversion that comes to be tried. */
  ghost predicate MayMove(lib: Library, tried: seq<Conversion>, t: Tab, keys: seq<string>, i: nat, j: nat) {
    && i < |keys| && j < |keys| && keys[i] in t
    && (tried == [] ||
        (MovableBy(lib, tried[0], t, keys, i, j) &&
         (ReadsNothing(lib, tried[0], keys, t) ==> MayMove(lib, tried[1..], t, keys, i, j))))
  }

  lemma {:induction false} MovedReadsAlike(lib: Library, tried: seq<Conversion>, t: Tab, keys: seq<string>, i: nat,
      j: nat)
    requires forall a, b :: 0 <= a < b < |keys| ==> keys[a] != keys[b]
    requires MayMove(lib, tried, t, keys, i, j)
    ensures ReadAlike(lib, tried, keys, t, Moved(t, keys[i], keys[j]))
  {
    if tried != [] {
      match tried[0] {
        case ToBool => RenamedAlias(t, keys, lib.asBool, i, j);
        case ToNumber => RenamedAlias(t, keys, n => lib.AsNumber(n), i, j);
        case ToText => RenamedAlias(t, keys, lib.asString, i, j);
      }
      if ReadsNothing(lib, tried[0], keys, t) {
        MovedReadsAlike(lib, tried[1..], t, keys, i, j);
      }
    }
  }

  /**
   Within a section a key may be replaced by any other alias of its field: the section reads alike when
   the value of alias `i` may move to alias `j`.
   */
  lemma RenamedKeyReadsAlike<F(!new)>(lib: Library, l: Layout<F>, t: Tab, f: F, i: nat, j: nat)
    requires AliasesApart(l) && f in l.all
    requires MayMove(lib, l.kind(f).Conversions(), t, l.row(f).aliases, i, j)
    ensures SectionsAlike(lib, l, Some(t), Some(Moved(t, l.row(f).aliases[i], l.row(f).aliases[j])))
  {
    var keys := l.row(f).aliases;
    var u := Moved(t, keys[i], keys[j]);
    forall g | g in l.all ensures ReadAlike(lib, l.kind(g).Conversions(), l.row(g).aliases, t, u) {
      if g == f {
        MovedReadsAlike(lib, l.kind(f).Conversions(), t, keys, i, j);
      } else {
        assert keys[i] !in l.row(g).aliases && keys[j] !in l.row(g).aliases;
        SameKeysReadAlike(lib, l.kind(g).Conversions(), l.row(g).aliases, t, u);
      }
    }
  }

  // ----- a renamed key in a whole tree

  /** A field of any section. */
  datatype AnyField =
    | InSeasons(seasonsField: SeasonsField)
    | InRifts(riftsField: RiftsField)
    | InEvents(eventsField: EventsField)
    | InCheats(cheatsField: CheatsField)
    | InLoot(lootField: LootField)
    | InOverlays(overlaysField: OverlaysField)
    | InGui(guiField: GuiField)
    | InDebug(debugField: DebugField)
    | InResolution(resolutionField: ResolutionField)
    | InExtra(extraField: ExtraField)

  function AliasesOf(field: AnyField): seq<string> {
    match field
    case InSeasons(f) => SeasonsRow(f).aliases
    case InRifts(f) => RiftsRow(f).aliases
    case InEvents(f) => EventsRow(f).aliases
    case InCheats(f) => CheatsRow(f).aliases
    case InLoot(f) => LootRow(f).aliases
    case InOverlays(f) => OverlaysRow(f).aliases
    case InGui(f) => GuiRow(f).aliases
    case InDebug(f) => DebugRow(f).aliases
    case InResolution(f) => ResolutionRow(f).aliases
    case InExtra(f) => ExtraRow(f).aliases
  }

  /** The conversions with which a field is read. */
  function ConversionsOf(field: AnyField): seq<Conversion> {
    match field
    case InSeasons(f) => SeasonsKind(f).Conversions()
    case InRifts(f) => RiftsKind(f).Conversions()
    case InEvents(f) => EventsKind(f).Conversions()
    case InCheats(f) => CheatsKind(f).Conversions()
    case InLoot(f) => LootKind(f).Conversions()
    case InOverlays(f) => OverlaysKind(f).Conversions()
    case InGui(f) => GuiKind(f).Conversions()
    case InDebug(f) => DebugKind(f).Conversions()
    case InResolution(f) => ResolutionKind(f).Conversions()
    case InExtra(f) => ExtraKind(f).Conversions()
  }

  /** The name of the section that holds the field, or that holds the `extra` table. */
  function SectionName(field: AnyField): string {
    match field
    case InSeasons(_) => "seasons"
    case InRifts(_) => "challenge_rifts"
    case InEvents(_) => "events"
    case InCheats(_) => "rare_cheats"
    case InLoot(_) => "loot_modifiers"
    case InOverlays(_) => "overlays"
    case InGui(_) => "gui"
    case InDebug(_) => "debug"
    case InResolution(_) => "resolution_hack"
    case InExtra(_) => "resolution_hack"
  }

  /** The table a field is read from. */
  function TableOf(root: Tab, field: AnyField): Option<Tab> {
    var section := FindTable(root, SectionName(field));
    if field.InExtra? then FindExtra(section) else section
  }

  /** The tree with another table at that place. */
  function WithTable(root: Tab, field: AnyField, u: Tab): Tab
    requires TableOf(root, field).Some?
  {
    var name := SectionName(field);
    root[name := Table(if field.InExtra? then FindTable(root, name).value["extra" := Table(u)] else u)]
  }

  /** The sections of that tree. */
  function WithSection(t: Sections, field: AnyField, section: Tab): Sections {
    match field
    case InSeasons(_) => t.(seasons := Some(section))
    case InRifts(_) => t.(rifts := Some(section))
    case InEvents(_) => t.(events := Some(section))
    case InCheats(_) => t.(cheats := Some(section))
    case InLoot(_) => t.(loot := Some(section))
    case InOverlays(_) => t.(overlays := Some(section))
    case InGui(_) => t.(gui := Some(section))
    case InDebug(_) => t.(debug := Some(section))
    case InResolution(_) => t.(resolution := Some(section))
    case InExtra(_) => t.(resolution := Some(section))
  }

  lemma SectionsWith(root: Tab, field: AnyField, section: Tab)
    ensures SectionsOf(root[SectionName(field) := Table(section)]) == WithSection(SectionsOf(root), field, section)
  {
    assert "challenge_rifts"[0] != "resolution_hack"[0];
    assert "seasons"[0] != "rare_cheats"[0] && "events"[0] != "overlays"[0];
  }

  lemma SectionAlikeItself<F(!new)>(lib: Library, l: Layout<F>, t: Option<Tab>)
    ensures SectionsAlike(lib, l, t, t)
  {
    KnownKeysDecide(lib, l, t, t);
  }

  lemma RootAlikeItself(lib: Library, t: Sections)
    ensures RootsAlike(lib, t, t)
  {
    SectionAlikeItself(lib, SEASONS, t.seasons);
    SectionAlikeItself(lib, RIFTS, t.rifts);
    SectionAlikeItself(lib, EVENTS, t.events);
    SectionAlikeItself(lib, CHEATS, t.cheats);
    SectionAlikeItself(lib, LOOT, t.loot);
    SectionAlikeItself(lib, OVERLAYS, t.overlays);
    SectionAlikeItself(lib, GUI, t.gui);
    SectionAlikeItself(lib, DEBUG, t.debug);
    SectionAlikeItself(lib, RESOLUTION, t.resolution);
    SectionAlikeItself(lib, EXTRA, FindExtra(t.resolution));
  }

  lemma RenamedInSeasons(lib: Library, t: Sections, f: SeasonsField, i: nat, j: nat)
    requires t.seasons.Some? && MayMove(lib, SeasonsKind(f).Conversions(), t.seasons.value, SeasonsRow(f).aliases, i, j)
    ensures RootsAlike(lib, t,
      t.(seasons := Some(Moved(t.seasons.value, SeasonsRow(f).aliases[i], SeasonsRow(f).aliases[j]))))
  {
    SeasonsAliasesApart();
    RootAlikeItself(lib, t);
    RenamedKeyReadsAlike(lib, SEASONS, t.seasons.value, f, i, j);
  }

  lemma RenamedInRifts(lib: Library, t: Sections, f: RiftsField, i: nat, j: nat)
    requires t.rifts.Some? && MayMove(lib, RiftsKind(f).Conversions(), t.rifts.value, RiftsRow(f).aliases, i, j)
    ensures RootsAlike(lib, t, t.(rifts := Some(Moved(t.rifts.value, RiftsRow(f).aliases[i], RiftsRow(f).aliases[j]))))
  {
    RiftsAliasesApart();
    RootAlikeItself(lib, t);
    RenamedKeyReadsAlike(lib, RIFTS, t.rifts.value, f, i, j);
  }

  lemma RenamedInEvents(lib: Library, t: Sections, f: EventsField, i: nat, j: nat)
    requires t.events.Some? && MayMove(lib, EventsKind(f).Conversions(), t.events.value, EventsRow(f).aliases, i, j)
    ensures RootsAlike(lib, t,
      t.(events := Some(Moved(t.events.value, EventsRow(f).aliases[i], EventsRow(f).aliases[j]))))
  {
    EventsAliasesApart();
    RootAlikeItself(lib, t);
    RenamedKeyReadsAlike(lib, EVENTS, t.events.value, f, i, j);
  }

  lemma RenamedInCheats(lib: Library, t: Sections, f: CheatsField, i: nat, j: nat)
    requires t.cheats.Some? && MayMove(lib, CheatsKind(f).Conversions(), t.cheats.value, CheatsRow(f).aliases, i, j)
    ensures RootsAlike(lib, t,
      t.(cheats := Some(Moved(t.cheats.value, CheatsRow(f).aliases[i], CheatsRow(f).aliases[j]))))
  {
    CheatsAliasesApart();
    RootAlikeItself(lib, t);
    RenamedKeyReadsAlike(lib, CHEATS, t.cheats.value, f, i, j);
  }

  lemma RenamedInLoot(lib: Library, t: Sections, f: LootField, i: nat, j: nat)
    requires t.loot.Some? && MayMove(lib, LootKind(f).Conversions(), t.loot.value, LootRow(f).aliases, i, j)
    ensures RootsAlike(lib, t, t.(loot := Some(Moved(t.loot.value, LootRow(f).aliases[i], LootRow(f).aliases[j]))))
  {
    LootAliasesApart();
    RootAlikeItself(lib, t);
    RenamedKeyReadsAlike(lib, LOOT, t.loot.value, f, i, j);
  }

  lemma RenamedInOverlays(lib: Library, t: Sections, f: OverlaysField, i: nat, j: nat)
    requires t.overlays.Some? &&
      MayMove(lib, OverlaysKind(f).Conversions(), t.overlays.value, OverlaysRow(f).aliases, i, j)
    ensures RootsAlike(lib, t,
      t.(overlays := Some(Moved(t.overlays.value, OverlaysRow(f).aliases[i], OverlaysRow(f).aliases[j]))))
  {
    OverlaysAliasesApart();
    RootAlikeItself(lib, t);
    RenamedKeyReadsAlike(lib, OVERLAYS, t.overlays.value, f, i, j);
  }

  lemma RenamedInGui(lib: Library, t: Sections, f: GuiField, i: nat, j: nat)
    requires t.gui.Some? && MayMove(lib, GuiKind(f).Conversions(), t.gui.value, GuiRow(f).aliases, i, j)
    ensures RootsAlike(lib, t, t.(gui := Some(Moved(t.gui.value, GuiRow(f).aliases[i], GuiRow(f).aliases[j]))))
  {
    GuiAliasesApart();
    RootAlikeItself(lib, t);
    RenamedKeyReadsAlike(lib, GUI, t.gui.value, f, i, j);
  }

  lemma RenamedInDebug(lib: Library, t: Sections, f: DebugField, i: nat, j: nat)
    requires t.debug.Some? && MayMove(lib, DebugKind(f).Conversions(), t.debug.value, DebugRow(f).aliases, i, j)
    ensures RootsAlike(lib, t, t.(debug := Some(Moved(t.debug.value, DebugRow(f).aliases[i], DebugRow(f).aliases[j]))))
  {
    DebugAliasesApart();
    RootAlikeItself(lib, t);
    RenamedKeyReadsAlike(lib, DEBUG, t.debug.value, f, i, j);
  }

  lemma OtherThanExtra(f: ResolutionField, i: nat)
    requires f != ExtraTable && i < |ResolutionRow(f).aliases|
    ensures ResolutionRow(f).aliases[i] != "extra"
  {
    if ResolutionRow(f).aliases[i] == ResolutionRow(ExtraTable).aliases[0] {
      ResolutionApart(f, ExtraTable, i, 0);
    }
  }

  lemma ExtraStays(table: Tab, f: ResolutionField, i: nat, j: nat)
    requires f != ExtraTable && i < |ResolutionRow(f).aliases| && j < |ResolutionRow(f).aliases|
    requires ResolutionRow(f).aliases[i] in table
    ensures FindExtra(Some(Moved(table, ResolutionRow(f).aliases[i], ResolutionRow(f).aliases[j])))
         == FindExtra(Some(table))
  {
    OtherThanExtra(f, i);
    OtherThanExtra(f, j);
  }

  lemma OtherKeysStay(t: Tab, extra: Node)
    ensures SameKnownKeys(RESOLUTION, Some(t), Some(t["extra" := extra]))
  {
    forall g: ResolutionField, k | g != ExtraTable && k in ResolutionRow(g).aliases ensures k != "extra" {
      var a :| 0 <= a < |ResolutionRow(g).aliases| && ResolutionRow(g).aliases[a] == k;
      OtherThanExtra(g, a);
    }
  }

  lemma ResolutionReplaced(lib: Library, t: Sections, u: Tab)
    requires SectionsAlike(lib, RESOLUTION, t.resolution, Some(u))
    requires SectionsAlike(lib, EXTRA, FindExtra(t.resolution), FindExtra(Some(u)))
    ensures RootsAlike(lib, t, t.(resolution := Some(u)))
  {
    RootAlikeItself(lib, t);
  }

  /** The `extra` table is no field of `[resolution_hack]` whose key could be mistaken for another's. */
  lemma RenamedInResolution(lib: Library, t: Sections, f: ResolutionField, i: nat, j: nat)
    requires t.resolution.Some? &&
      MayMove(lib, ResolutionKind(f).Conversions(), t.resolution.value, ResolutionRow(f).aliases, i, j)
    ensures RootsAlike(lib, t,
      t.(resolution := Some(Moved(t.resolution.value, ResolutionRow(f).aliases[i], ResolutionRow(f).aliases[j]))))
  {
    var table := t.resolution.value;
    if f == ExtraTable {
      assert Moved(table, "extra", "extra") == table;
      assert t.(resolution := Some(table)) == t;
      RootAlikeItself(lib, t);
    } else {
      ResolutionAliasesApart();
      RenamedKeyReadsAlike(lib, RESOLUTION, table, f, i, j);
      ExtraStays(table, f, i, j);
      ResolutionReplaced(lib, t, Moved(table, ResolutionRow(f).aliases[i], ResolutionRow(f).aliases[j]));
    }
  }

  lemma RenamedInExtra(lib: Library, t: Sections, f: ExtraField, i: nat, j: nat)
    requires FindExtra(t.resolution).Some? &&
      MayMove(lib, ExtraKind(f).Conversions(), FindExtra(t.resolution).value, ExtraRow(f).aliases, i, j)
    ensures var table := FindExtra(t.resolution).value;
      var u := Moved(table, ExtraRow(f).aliases[i], ExtraRow(f).aliases[j]);
      RootsAlike(lib, t, t.(resolution := Some(t.resolution.value["extra" := Table(u)])))
  {
    var table := FindExtra(t.resolution).value;
    var u := Moved(table, ExtraRow(f).aliases[i], ExtraRow(f).aliases[j]);
    ExtraAliasesApart();
    RenamedKeyReadsAlike(lib, EXTRA, table, f, i, j);
    OtherKeysStay(t.resolution.value, Table(u));
    var v := t.resolution.value["extra" := Table(u)];
    KnownKeysDecide(lib, RESOLUTION, t.resolution, Some(v));
    assert FindExtra(Some(v)) == Some(u);
    ResolutionReplaced(lib, t, v);
  }

  /**
   In every section a key may be replaced by any alias of its field: the configuration that the tree gives
   stays the same, as long as the value may move under the conversions with which the field is read.
   */
  lemma RenamedKeyApplied(lib: Library, devMem: bool, c: Config, root: Tab, field: AnyField, i: nat, j: nat)
    requires TableOf(root, field).Some?
    requires MayMove(lib, ConversionsOf(field), TableOf(root, field).value, AliasesOf(field), i, j)
    ensures var keys := AliasesOf(field);
      Applied(lib, devMem, c, WithTable(root, field, Moved(TableOf(root, field).value, keys[i], keys[j])))
        == Applied(lib, devMem, c, root)
  {
    var t := SectionsOf(root);
    var keys := AliasesOf(field);
    var moved := Moved(TableOf(root, field).value, keys[i], keys[j]);
    var section := if field.InExtra? then t.resolution.value["extra" := Table(moved)] else moved;
    match field {
      case InSeasons(f) => RenamedInSeasons(lib, t, f, i, j);
      case InRifts(f) => RenamedInRifts(lib, t, f, i, j);
      case InEvents(f) => RenamedInEvents(lib, t, f, i, j);
      case InCheats(f) => RenamedInCheats(lib, t, f, i, j);
      case InLoot(f) => RenamedInLoot(lib, t, f, i, j);
      case InOverlays(f) => RenamedInOverlays(lib, t, f, i, j);
      case InGui(f) => RenamedInGui(lib, t, f, i, j);
      case InDebug(f) => RenamedInDebug(lib, t, f, i, j);
      case InResolution(f) => RenamedInResolution(lib, t, f, i, j);
      case InExtra(f) => RenamedInExtra(lib, t, f, i, j);
    }
    assert RootsAlike(lib, t, WithSection(t, field, section));
    SectionsWith(root, field, section);
    AppliedByReadings(lib, devMem, c, root, WithTable(root, field, moved));
  }

  /** A switch given as a text is passed over, so that the alias behind it may be replaced by another. */
  lemma WrongTypeExample(lib: Library, devMem: bool, c: Config)
    requires Exact(lib) && lib.asBool(Str("on")).None?
    ensures Applied(lib, devMem, c,
      map["seasons" := Table(map["SectionEnabled" := Str("on"), "Enabled" := Bool(false)])])
         == Applied(lib, devMem, c,
           map["seasons" := Table(map["SectionEnabled" := Str("on"), "Active" := Bool(false)])])
  {
    var t: Tab := map["SectionEnabled" := Str("on"), "Enabled" := Bool(false)];
    var root: Tab := map["seasons" := Table(t)];
    var field := InSeasons(SeasonsField.Active);
    assert AliasesOf(field) == ["SectionEnabled", "Enabled", "Active"];
    assert |"SectionEnabled"| == 14 && |"Enabled"| == 7 && |"Active"| == 6;
    assert Movable(t, AliasesOf(field), lib.asBool, 1, 2);
    assert Moved(t, "Enabled", "Active") == map["SectionEnabled" := Str("on"), "Active" := Bool(false)];
    assert WithTable(root, field, Moved(t, "Enabled", "Active"))
         == map["seasons" := Table(Moved(t, "Enabled", "Active"))];
    RenamedKeyApplied(lib, devMem, c, root, field, 1, 2);
  }

  /** A season-map mode given as a string beats every one given as a boolean, wherever the two stand. */
  lemma ModeStringBeatsBool(lib: Library, t: Tab, fallback: MapMode, i: nat)
    requires i < |EventsRow(SeasonMapMode).aliases|
    requires Reading(t, EventsRow(SeasonMapMode).aliases[i], lib.asString).Some?
    requires forall j :: 0 <= j < i ==> Reading(t, EventsRow(SeasonMapMode).aliases[j], lib.asString).None?
    ensures ApplyMapMode(lib, Some(t), fallback)
         == ParseMapMode(Reading(t, EventsRow(SeasonMapMode).aliases[i], lib.asString).value, fallback)
  {
    FirstAlias(t, EventsRow(SeasonMapMode).aliases, lib.asString, i);
  }
}
