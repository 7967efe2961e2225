/**
 What a configuration file means, said without any reader: per section and field the names the value may
 stand under, the bounds, and what happens when the file does not give it. `Applied` follows these rules,
 and they leave no choice.
 */
module ConfigRules {
  import opened Options
  import opened Decimals
  import opened Toml
  import opened Spelling
  import opened Settings
  import opened ConfigLayouts
  import opened SeasonEvents
  import opened PatchConfigs

  // ----- what the aliases give

  /** No name that is there converts. */
  ghost predicate Nothing<T>(t: Tab, keys: seq<string>, conv: Node -> Option<T>) {
    forall j :: 0 <= j < |keys| && keys[j] in t ==> conv(t[keys[j]]).None?
  }

  /** Of the names that are there and convert, the first one gives `v`. */
  ghost predicate First<T>(t: Tab, keys: seq<string>, conv: Node -> Option<T>, v: T) {
    exists i :: 0 <= i < |keys| && keys[i] in t && conv(t[keys[i]]) == Some(v) && Nothing(t, keys[..i], conv)
  }

  /** A node is a number if it reads as a double or, failing that, as an integer. */
  ghost predicate IsNumber(lib: Library, n: Node, v: real) {
    if lib.asDouble(n).Some? then lib.asDouble(n) == Some(v)
    else lib.asInt(n).Some? && v == lib.asInt(n).value as real
  }

  ghost predicate NoNumber(lib: Library, t: Tab, keys: seq<string>) {
    forall j :: 0 <= j < |keys| && keys[j] in t ==> lib.asDouble(t[keys[j]]).None? && lib.asInt(t[keys[j]]).None?
  }

  ghost predicate FirstNumber(lib: Library, t: Tab, keys: seq<string>, v: real) {
    exists i :: 0 <= i < |keys| && keys[i] in t && IsNumber(lib, t[keys[i]], v) && NoNumber(lib, t, keys[..i])
  }

  // ----- the kinds of fields

  /** `x` is `v`, or the bound that `v` is beyond. */
  predicate Bounded(v: real, lo: real, hi: real, x: real) {
    if v <= lo then x == lo else if hi <= v then x == hi else x == v
  }

  /** `i` is `v` without its fraction, or the bound that `v` is beyond. */
  predicate BoundedWhole(v: real, lo: int, hi: int, i: int) {
    if v <= lo as real then i == lo
    else if hi as real <= v then i == hi
    else if v >= 0.0 then i as real <= v < i as real + 1.0
    else i as real - 1.0 < v <= i as real
  }

  /** A switch is what the file says, and what it was if the file does not say. */
  ghost predicate SwitchRule<F>(lib: Library, t: Tab, keys: seq<string>, f: F, st: Settings<F>, r: Settings<F>) {
    if Nothing(t, keys, lib.asBool) then f in r.on <==> f in st.on else First(t, keys, lib.asBool, f in r.on)
  }

  /** A number loses its fraction and is kept within bounds; it stays if the file gives none. */
  ghost predicate NumberRule(lib: Library, t: Tab, keys: seq<string>, lo: int, hi: int, before: int, after: int) {
    if NoNumber(lib, t, keys) then after == before
    else exists v :: FirstNumber(lib, t, keys, v) && BoundedWhole(v, lo, hi, after)
  }

  ghost predicate SpeedRule(lib: Library, t: Tab, keys: seq<string>, before: real, after: real) {
    if NoNumber(lib, t, keys) then after == before
    else exists v :: FirstNumber(lib, t, keys, v) && Bounded(v, 0.1, 10.0, after)
  }

  ghost predicate TextRule(lib: Library, t: Tab, keys: seq<string>, before: string, after: string) {
    if Nothing(t, keys, lib.asString) then after == before else First(t, keys, lib.asString, after)
  }

  // ----- switches and numbers, section by section

  /** `[seasons]`. */
  ghost predicate SeasonsRule(lib: Library, t: Tab, f: SeasonsField, st: Settings<SeasonsField>,
      r: Settings<SeasonsField>)
  {
    match f
    case Active => SwitchRule(lib, t, ["SectionEnabled", "Enabled", "Active"], f, st, r)
    case AllowOnline => SwitchRule(lib, t, ["AllowOnlinePlay", "AllowOnline"], f, st, r)
    case CurrentSeason => NumberRule(lib, t, ["SeasonNumber", "Number", "Season"], 1, 200, Num(st, f), Num(r, f))
    case SpoofPtr => SwitchRule(lib, t, ["SpoofPtr", "SpoofPTR", "PtrSpoof"], f, st, r)
  }

  /** The switches of `[challenge_rifts]`. */
  ghost predicate RiftsRule(lib: Library, t: Tab, f: RiftsField, st: Settings<RiftsField>, r: Settings<RiftsField>) {
    match f
    case Active => SwitchRule(lib, t, ["SectionEnabled", "Enabled", "Active"], f, st, r)
    case Random => SwitchRule(lib, t, ["MakeRiftsRandom", "Random"], f, st, r)
    case _ => true
  }

  /** `[events]`: the flags as the file gives them, before the season map. */
  ghost predicate EventsRule(lib: Library, t: Tab, f: EventsField, st: Settings<EventsField>,
      r: Settings<EventsField>)
  {
    match f
    case Active => SwitchRule(lib, t, ["SectionEnabled", "Enabled", "Active"], f, st, r)
    case IgrEnabled => SwitchRule(lib, t, ["IgrEnabled"], f, st, r)
    case AnniversaryEnabled => SwitchRule(lib, t, ["AnniversaryEnabled"], f, st, r)
    case EasterEggWorldEnabled => SwitchRule(lib, t, ["EasterEggWorldEnabled"], f, st, r)
    case DoubleRiftKeystones => SwitchRule(lib, t, ["DoubleRiftKeystones"], f, st, r)
    case DoubleBloodShards => SwitchRule(lib, t, ["DoubleBloodShards"], f, st, r)
    case DoubleTreasureGoblins => SwitchRule(lib, t, ["DoubleTreasureGoblins"], f, st, r)
    case DoubleBountyBags => SwitchRule(lib, t, ["DoubleBountyBags"], f, st, r)
    case RoyalGrandeur => SwitchRule(lib, t, ["RoyalGrandeur"], f, st, r)
    case LegacyOfNightmares => SwitchRule(lib, t, ["LegacyOfNightmares"], f, st, r)
    case TriunesWill => SwitchRule(lib, t, ["TriunesWill"], f, st, r)
    case Pandemonium => SwitchRule(lib, t, ["Pandemonium"], f, st, r)
    case KanaiPowers => SwitchRule(lib, t, ["KanaiPowers"], f, st, r)
    case TrialsOfTempests => SwitchRule(lib, t, ["TrialsOfTempests"], f, st, r)
    case ShadowClones => SwitchRule(lib, t, ["ShadowClones"], f, st, r)
    case FourthKanaisCubeSlot => SwitchRule(lib, t, ["FourthKanaisCubeSlot"], f, st, r)
    case EtherealItems => SwitchRule(lib, t, ["EtherealItems", "EthrealItems"], f, st, r)
    case SoulShards => SwitchRule(lib, t, ["SoulShards"], f, st, r)
    case SwarmRifts => SwitchRule(lib, t, ["SwarmRifts"], f, st, r)
    case SanctifiedItems => SwitchRule(lib, t, ["SanctifiedItems"], f, st, r)
    case DarkAlchemy => SwitchRule(lib, t, ["DarkAlchemy"], f, st, r)
    case NestingPortals => SwitchRule(lib, t, ["NestingPortals"], f, st, r)
    case _ => true
  }

  /** `[resolution_hack.extra]`. */
  ghost predicate ExtraRule(lib: Library, t: Tab, f: ExtraField, st: Settings<ExtraField>, r: Settings<ExtraField>) {
    match f
    case WindowLeft => NumberRule(lib, t, ["WindowLeft", "WinLeft", "Left"], -1, 16384, Num(st, f), Num(r, f))
    case WindowTop => NumberRule(lib, t, ["WindowTop", "WinTop", "Top"], -1, 16384, Num(st, f), Num(r, f))
    case WindowWidth => NumberRule(lib, t, ["WindowWidth", "WinWidth", "Width"], -1, 16384, Num(st, f), Num(r, f))
    case WindowHeight => NumberRule(lib, t, ["WindowHeight", "WinHeight", "Height"], -1, 16384, Num(st, f), Num(r, f))
    case UiOptWidth => NumberRule(lib, t, ["UIOptWidth", "UIWidth", "UiWidth"], -1, 16384, Num(st, f), Num(r, f))
    case UiOptHeight => NumberRule(lib, t, ["UIOptHeight", "UIHeight", "UiHeight"], -1, 16384, Num(st, f), Num(r, f))
    case RenderWidth =>
      NumberRule(lib, t, ["RenderWidth", "DisplayWidth", "BackbufferWidth"], -1, 16384, Num(st, f), Num(r, f))
    case RenderHeight =>
      NumberRule(lib, t, ["RenderHeight", "DisplayHeight", "BackbufferHeight"], -1, 16384, Num(st, f), Num(r, f))
    case RefreshRate => NumberRule(lib, t, ["RefreshRate", "Hz"], -1, 1000, Num(st, f), Num(r, f))
    case BitDepth => NumberRule(lib, t, ["BitDepth", "Bpp"], -1, 64, Num(st, f), Num(r, f))
    case MsaaLevel => NumberRule(lib, t, ["MSAALevel", "MSAA", "Msaa"], -1, 16, Num(st, f), Num(r, f))
  }

  /** The switches of `[rare_cheats]`. */
  ghost predicate CheatsRule(lib: Library, t: Tab, f: CheatsField, st: Settings<CheatsField>,
      r: Settings<CheatsField>)
  {
    match f
    case Active => SwitchRule(lib, t, ["SectionEnabled", "Enabled", "Active"], f, st, r)
    case FloatingDamageColor =>
      SwitchRule(lib, t, ["FloatingDamageColor", "FloatingDamageColors", "FloatingDamage"], f, st, r)
    case GuaranteedLegendaries => SwitchRule(lib, t, ["GuaranteedLegendaryChance"], f, st, r)
    case DropAnything => SwitchRule(lib, t, ["DropAnyItems"], f, st, r)
    case InstantPortal => SwitchRule(lib, t, ["InstantPortalAndBookOfCain"], f, st, r)
    case NoCooldowns => SwitchRule(lib, t, ["NoCooldowns"], f, st, r)
    case InstantCraftActions => SwitchRule(lib, t, ["InstantCubeAndCraftsAndEnchants"], f, st, r)
    case AnyGemAnySlot => SwitchRule(lib, t, ["SocketGemsToAnySlot"], f, st, r)
    case AutoPickup => SwitchRule(lib, t, ["AutoPickup"], f, st, r)
    case EquipAnySlot => SwitchRule(lib, t, ["EquipAnySlot", "EquipAnyItem"], f, st, r)
    case UnlockAllDifficulties => SwitchRule(lib, t, ["UnlockAllDifficulties", "UnlockDifficulties"], f, st, r)
    case EasyKillDamage => SwitchRule(lib, t, ["EasyKillDamage", "EasyKillBoost"], f, st, r)
    case InfiniteMp => SwitchRule(lib, t, ["InfiniteMP", "InfiniteMana", "InfiniteResource"], f, st, r)
    case CubeNoConsume =>
      SwitchRule(lib, t, ["CubeNoConsumeMaterials", "CubeNoConsume", "KanaiCubeNoConsume"], f, st, r)
    case GemUpgradeAlways =>
      SwitchRule(lib, t, ["LegendaryGemUpgradeAlways", "GemUpgradeAlways", "LegendaryGemUpgradeChance"], f, st, r)
    case GemUpgradeSpeed =>
      SwitchRule(lib, t, ["LegendaryGemUpgradeSpeed", "GemUpgradeSpeed", "GemUpgradeFast"], f, st, r)
    case GemUpgradeLvl150 => SwitchRule(lib, t, ["LegendaryGemLevel150", "GemUpgradeLevel150", "GemLevel150"], f, st, r)
    case EquipMultiLegendary =>
      SwitchRule(lib, t, ["EquipMultipleLegendaries", "EquipMultipleLegendaryItems", "EquipMultiLegendary"], f, st, r)
    case SuperGodMode => SwitchRule(lib, t, ["SuperGodMode", "EnableSuperGodMode"], f, st, r)
    case ExtraGrOrbsElites =>
      SwitchRule(lib, t, ["ExtraGreaterRiftOrbsOnEliteKill", "ExtraGROrbsOnEliteKill", "ExtraGROrbsElites"], f, st, r)
    case _ => true
  }

  /** The switches and numbers of `[loot_modifiers]`. */
  ghost predicate LootRule(lib: Library, t: Tab, f: LootField, st: Settings<LootField>, r: Settings<LootField>) {
    match f
    case Active => SwitchRule(lib, t, ["SectionEnabled", "Enabled", "Active"], f, st, r)
    case DisableAncientDrops => SwitchRule(lib, t, ["DisableAncientDrops"], f, st, r)
    case DisablePrimalAncientDrops => SwitchRule(lib, t, ["DisablePrimalAncientDrops"], f, st, r)
    case DisableTormentDrops => SwitchRule(lib, t, ["DisableTormentDrops"], f, st, r)
    case DisableTormentCheck => SwitchRule(lib, t, ["DisableTormentCheck"], f, st, r)
    case SuppressGiftGeneration => SwitchRule(lib, t, ["SuppressGiftGeneration"], f, st, r)
    case ForcedILevel => NumberRule(lib, t, ["ForcedILevel"], 0, 70, Num(st, f), Num(r, f))
    case TieredLootRunLevel => NumberRule(lib, t, ["TieredLootRunLevel"], 0, 150, Num(st, f), Num(r, f))
    case _ => true
  }

  /** `[overlays]`. */
  ghost predicate OverlaysRule(lib: Library, t: Tab, f: OverlaysField, st: Settings<OverlaysField>,
      r: Settings<OverlaysField>)
  {
    match f
    case Active => SwitchRule(lib, t, ["SectionEnabled", "Enabled", "Active"], f, st, r)
    case BuildlockerWatermark => SwitchRule(lib, t, ["BuildLockerWatermark", "BuildlockerWatermark"], f, st, r)
    case DdmLabels => SwitchRule(lib, t, ["DDMLabels", "DebugLabels"], f, st, r)
    case FpsLabel => SwitchRule(lib, t, ["FPSLabel", "DrawFPSLabel"], f, st, r)
    case VarResLabel => SwitchRule(lib, t, ["VariableResLabel", "VarResLabel", "DrawVariableResolutionLabel"], f, st, r)
  }

  /** The switches of `[gui]`. */
  ghost predicate GuiRule(lib: Library, t: Tab, f: GuiField, st: Settings<GuiField>, r: Settings<GuiField>) {
    match f
    case Enabled => SwitchRule(lib, t, ["Enabled", "SectionEnabled", "Active"], f, st, r)
    case Visible => SwitchRule(lib, t, ["Visible", "Show", "WindowVisible"], f, st, r)
    case AllowLeftStickPassthrough =>
      SwitchRule(lib, t, ["AllowLeftStickPassthrough", "LeftStickPassthrough", "AllowLeftStickThrough"], f, st, r)
    case _ => true
  }

  /** `[debug]`. */
  ghost predicate DebugRule(lib: Library, t: Tab, f: DebugField, st: Settings<DebugField>, r: Settings<DebugField>) {
    match f
    case Active => SwitchRule(lib, t, ["SectionEnabled", "Enabled", "Active"], f, st, r)
    case EnableCrashes => SwitchRule(lib, t, ["Acknowledge_god_jester"], f, st, r)
    case EnablePubfileDump => SwitchRule(lib, t, ["EnablePubFileDump", "PubFileDump"], f, st, r)
    case EnableErrorTraces => SwitchRule(lib, t, ["EnableErrorTraces", "ErrorTraces"], f, st, r)
    case EnableDebugFlags => SwitchRule(lib, t, ["EnableDebugFlags", "DebugFlags"], f, st, r)
    case TagNx => SwitchRule(lib, t, ["SpoofNetworkFunctions", "SpoofNetwork", "TagNX"], f, st, r)
    case EnableExceptionHandler => SwitchRule(lib, t, ["EnableExceptionHandler", "ExceptionHandler"], f, st, r)
    case EnableOeNotificationHook => SwitchRule(lib, t, ["EnableOeNotificationHook", "OeNotificationHook"], f, st, r)
    case LogOeNotificationMessages =>
      SwitchRule(lib, t, ["LogOeNotificationMessages", "LogNotificationMessages"], f, st, r)
  }

  /** The switches of `[resolution_hack]`. */
  ghost predicate ResolutionRule(lib: Library, t: Tab, f: ResolutionField, st: Settings<ResolutionField>,
      r: Settings<ResolutionField>)
  {
    match f
    case Active => SwitchRule(lib, t, ["SectionEnabled", "Enabled", "Active"], f, st, r)
    case SpoofDocked => SwitchRule(lib, t, ["SpoofDocked", "SpoofDock", "DockedSpoof"], f, st, r)
    case ExpScheduler =>
      SwitchRule(lib, t, ["ExperimentalScheduler", "ExpScheduler", "ExperimentalScheduling", "ExpScheduling"], f, st, r)
    case _ => true
  }

  // ----- the fields that are read in their own ways

  /** The two ends of the rift range are put in order. */
  ghost predicate EndsRule(lib: Library, t: Tab, st: Settings<RiftsField>, r: Settings<RiftsField>) {
    exists start, end ::
      && NumberRule(lib, t, ["RiftRangeStart", "RangeStart", "RangeMin"], 0, 999, Num(st, RangeStart), start)
      && NumberRule(lib, t, ["RiftRangeEnd", "RangeEnd", "RangeMax"], 0, 999, Num(st, RangeEnd), end)
      && Num(r, RangeStart) == (if start < end then start else end)
      && Num(r, RangeEnd) == (if start < end then end else start)
  }

  /** A text that names a mode decides; only without any text a boolean does. */
  ghost predicate ModeRule(lib: Library, t: Tab, before: MapMode, after: MapMode) {
    var keys := ["SeasonMapMode", "SeasonEventMapMode", "SeasonEventMap", "SeasonMap"];
    if !Nothing(t, keys, lib.asString) then
      exists s :: First(t, keys, lib.asString, s) && ModeNamed(NormalizeKey(s), before, after)
    else if !Nothing(t, keys, lib.asBool) then
      if First(t, keys, lib.asBool, true) then after == MapOnly else after == Disabled
    else after == before
  }

  predicate ModeNamed(word: string, before: MapMode, after: MapMode) {
    if word == "maponly" || word == "map" || word == "seasonmap" || word == "simulate" then after == MapOnly
    else if word == "overlay" || word == "overlayconfig" || word == "add" || word == "additive" || word == "merge" then
      after == OverlayConfig
    else if word == "disabled" || word == "off" || word == "none" || word == "false" then after == Disabled
    else after == before
  }

  /** The text, old or new, gives the value if it names one, and the value gives the text. */
  ghost predicate RankRule(lib: Library, t: Tab, before: string, beforeValue: int, after: string, afterValue: int) {
    exists s :: TextRule(lib, t, ["AncientRank"], before, s) && RankNamed(NormalizeKey(s), beforeValue, afterValue) &&
      after == if afterValue == 0 then "Normal" else if afterValue == 1 then "Ancient"
        else if afterValue == 2 then "Primal" else s
  }

  predicate RankNamed(word: string, before: int, after: int) {
    if word == "0" || word == "normal" || word == "none" then after == 0
    else if word == "1" || word == "ancient" then after == 1
    else if word == "2" || word == "primal" || word == "primalancient" then after == 2
    else after == before
  }

  /** A number is brought within 720 and what the memory allows; a text is a name or a number of its own. */
  ghost predicate TargetRule(lib: Library, devMem: bool, t: Tab, before: int, after: int) {
    var keys := ["OutputTarget", "OutputHeight", "Height", "OutputVertical", "Vertical", "OutputRes",
      "OutputResolution", "OutputWidth", "Width"];
    var most := if devMem then 2160 else 1440;
    if !NoNumber(lib, t, keys) then exists v :: FirstNumber(lib, t, keys, v) && BoundedWhole(v, 720, most, after)
    else if !Nothing(t, keys, lib.asString) then
      exists s, height :: First(t, keys, lib.asString, s) && HeightNamed(NormalizeKey(s), before, height) &&
        after == if height < most then height else most
    else after == before
  }

  ghost predicate HeightNamed(word: string, before: int, height: int) {
    if word == "720" || word == "720p" then height == 720
    else if word == "900" || word == "900p" || word == "default" || word == "unchanged" then height == 900
    else if word == "1080" || word == "1080p" || word == "fhd" then height == 1080
    else if word == "1440" || word == "1440p" || word == "2k" || word == "qhd" then height == 1440
    else if word == "2160" || word == "2160p" || word == "4k" || word == "uhd" then height == 2160
    else if word != "" && AllDigits(word) && 0 < ReadDigits(word, 0) < 0x1_0000_0000 then
      height == ReadDigits(word, 0)
    else height == before
  }

  /** Off, or the nearest five-percent step from 40 to 100; up to one it is a fraction, and not a percentage. */
  predicate HandheldStep(v: real, scale: real) {
    if v <= 0.0 then scale == 0.0
    else
      var percent := if v <= 1.0 then 100.0 * v else v;
      && (scale / 5.0).Floor as real * 5.0 == scale
      && if percent <= 40.0 then scale == 40.0
         else if percent >= 100.0 then scale == 100.0
         else scale - 2.5 <= percent < scale + 2.5
  }

  ghost predicate HandheldRule(lib: Library, t: Tab, before: real, after: real) {
    var keys := ["OutputHandheldScale", "HandheldScale", "HandheldOutputScale"];
    if NoNumber(lib, t, keys) then after == before
    else exists v :: FirstNumber(lib, t, keys, v) && HandheldStep(v, after)
  }

  /** The upper scale, if given, is final and bounds the lower one; otherwise a given lower one lifts the upper one. */
  ghost predicate ScalesRule(lib: Library, t: Tab, lo: real, hi: real, lo': real, hi': real) {
    var lower := ["MinScale", "MinimumScale", "MinResScale", "MinimumResScale", "MinResolutionScale",
      "MinimumResolutionScale"];
    var upper := ["MaxScale", "MaximumScale", "MaxResScale", "MaximumResScale", "MaxResolutionScale",
      "MaximumResolutionScale"];
    if NoNumber(lib, t, lower) && NoNumber(lib, t, upper) then lo' == lo && hi' == hi
    else if NoNumber(lib, t, upper) then
      (exists v :: FirstNumber(lib, t, lower, v) && Bounded(v, 10.0, 100.0, lo')) &&
      hi' == if hi < lo' then lo' else hi
    else
      (exists v :: FirstNumber(lib, t, upper, v) && Bounded(v, 10.0, 100.0, hi')) &&
      if NoNumber(lib, t, lower) then lo' == if hi' < lo then hi' else lo
      else exists v :: FirstNumber(lib, t, lower, v) && Bounded(v, 10.0, hi', lo')
  }

  ghost predicate ClampRule(lib: Library, t: Tab, before: int, after: int) {
    var keys := ["ClampTextureResolution", "ClampTextureHeight", "ClampTexture", "ClampTextureRes"];
    if NoNumber(lib, t, keys) then after == before
    else exists v :: FirstNumber(lib, t, keys, v) && if v < 1.0 then after == 0 else BoundedWhole(v, 100, 9999, after)
  }

  // ----- the whole file

  predicate HasTable(t: Tab, name: string) {
    name in t && t[name].Table?
  }

  /** The flags as given, and then what the season map makes of them; it is consulted in any case. */
  ghost predicate EventsGiven(lib: Library, root: Tab, st: Settings<EventsField>, given: Settings<EventsField>) {
    if HasTable(root, "events") then forall f :: EventsRule(lib, root["events"].entries, f, st, given)
    else given == st
  }

  ghost predicate FlagsRule(lib: Library, root: Tab, before: Config, after: Config) {
    exists given :: EventsGiven(lib, root, before.events, given) &&
      forall f: EventsField :: f != SeasonMapMode ==> (f in after.events.on <==>
        OnAfterMap(after.mapMode, SeasonsField.Active in after.seasons.on, Num(after.seasons, CurrentSeason), f,
          f in given.on))
  }

  ghost predicate SeasonsFollow(lib: Library, root: Tab, before: Config, after: Config) {
    if HasTable(root, "seasons") then
      forall f :: SeasonsRule(lib, root["seasons"].entries, f, before.seasons, after.seasons)
    else after.seasons == before.seasons
  }

  ghost predicate RiftsFollow(lib: Library, root: Tab, before: Config, after: Config) {
    if HasTable(root, "challenge_rifts") then
      var t := root["challenge_rifts"].entries;
      && (forall f :: RiftsRule(lib, t, f, before.rifts, after.rifts))
      && EndsRule(lib, t, before.rifts, after.rifts)
    else after.rifts == before.rifts
  }

  ghost predicate EventsFollow(lib: Library, root: Tab, before: Config, after: Config) {
    && (if HasTable(root, "events") then ModeRule(lib, root["events"].entries, before.mapMode, after.mapMode)
        else after.mapMode == before.mapMode)
    && FlagsRule(lib, root, before, after)
  }

  ghost predicate CheatsFollow(lib: Library, root: Tab, before: Config, after: Config) {
    if HasTable(root, "rare_cheats") then
      var t := root["rare_cheats"].entries;
      && (forall f :: CheatsRule(lib, t, f, before.cheats, after.cheats))
      && SpeedRule(lib, t, ["MovementSpeedMultiplier", "MoveSpeedMultiplier"], before.moveSpeed, after.moveSpeed)
      && SpeedRule(lib, t, ["AttackSpeedMultiplier", "AtkSpeedMultiplier", "AttackSpeed"], before.attackSpeed,
           after.attackSpeed)
    else
      after.cheats == before.cheats && after.moveSpeed == before.moveSpeed && after.attackSpeed == before.attackSpeed
  }

  ghost predicate LootFollows(lib: Library, root: Tab, before: Config, after: Config) {
    if HasTable(root, "loot_modifiers") then
      var t := root["loot_modifiers"].entries;
      && (forall f :: LootRule(lib, t, f, before.loot, after.loot))
      && RankRule(lib, t, before.rank, before.rankValue, after.rank, after.rankValue)
    else after.loot == before.loot && after.rank == before.rank && after.rankValue == before.rankValue
  }

  ghost predicate OverlaysFollow(lib: Library, root: Tab, before: Config, after: Config) {
    if HasTable(root, "overlays") then
      forall f :: OverlaysRule(lib, root["overlays"].entries, f, before.overlays, after.overlays)
    else after.overlays == before.overlays
  }

  ghost predicate GuiFollows(lib: Library, root: Tab, before: Config, after: Config) {
    if HasTable(root, "gui") then
      var t := root["gui"].entries;
      && (forall f :: GuiRule(lib, t, f, before.gui, after.gui))
      && TextRule(lib, t, ["Language", "Lang", "Locale"], before.language, after.language)
    else after.gui == before.gui && after.language == before.language
  }

  ghost predicate DebugFollows(lib: Library, root: Tab, before: Config, after: Config) {
    if HasTable(root, "debug") then
      forall f :: DebugRule(lib, root["debug"].entries, f, before.debug, after.debug)
    else after.debug == before.debug
  }

  ghost predicate ResolutionFollows(lib: Library, devMem: bool, root: Tab, before: Config, after: Config) {
    if HasTable(root, "resolution_hack") then
      var (t, o, p) := (root["resolution_hack"].entries, before.output, after.output);
      && (forall f :: ResolutionRule(lib, t, f, before.resolution, after.resolution))
      && TargetRule(lib, devMem, t, o.target, p.target)
      && HandheldRule(lib, t, o.handheldScale, p.handheldScale)
      && ScalesRule(lib, t, o.minScale, o.maxScale, p.minScale, p.maxScale)
      && ClampRule(lib, t, o.clampTexture, p.clampTexture)
    else after.resolution == before.resolution && after.output == before.output
  }

  ghost predicate ExtraFollows(lib: Library, root: Tab, before: Config, after: Config) {
    if HasTable(root, "resolution_hack") && HasTable(root["resolution_hack"].entries, "extra") then
      forall f :: ExtraRule(lib, root["resolution_hack"].entries["extra"].entries, f, before.extra, after.extra)
    else after.extra == before.extra
  }

  /** `after` is what the file makes of `before`. */
  ghost predicate Follows(lib: Library, devMem: bool, root: Tab, before: Config, after: Config) {
    && after.initialized && !after.defaultsOnly
    && SeasonsFollow(lib, root, before, after)
    && RiftsFollow(lib, root, before, after)
    && EventsFollow(lib, root, before, after)
    && CheatsFollow(lib, root, before, after)
    && LootFollows(lib, root, before, after)
    && OverlaysFollow(lib, root, before, after)
    && GuiFollows(lib, root, before, after)
    && DebugFollows(lib, root, before, after)
    && ResolutionFollows(lib, devMem, root, before, after)
    && ExtraFollows(lib, root, before, after)
  }
}
