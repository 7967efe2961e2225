/**
 The sections of `PatchConfig` as layouts, field by field in the order of the source:
 source/program/config.cpp for the first six, the entry table of source/program/config_schema.cpp
 for the others.
 */
module ConfigLayouts {
  import opened Settings

  const UNSET := -1
  const MAX_DIMENSION := 16384
  const MAX_REFRESH_RATE := 1000
  const MAX_BIT_DEPTH := 64
  const MAX_MSAA_LEVEL := 16

  /** `[seasons]`: source/program/config.cpp 467-472. */
  datatype SeasonsField =
    | Active | AllowOnline | CurrentSeason | SpoofPtr

  function SeasonsRow(f: SeasonsField): Row {
    match f
    case Active => Row(["SectionEnabled", "Enabled", "Active"], 0)
    case AllowOnline => Row(["AllowOnlinePlay", "AllowOnline"], 0)
    case CurrentSeason => Row(["SeasonNumber", "Number", "Season"], 0)
    case SpoofPtr => Row(["SpoofPtr", "SpoofPTR", "PtrSpoof"], 0)
  }

  function SeasonsKind(f: SeasonsField): Kind {
    match f
    case CurrentSeason => Number(1, 200)
    case _ => Switch
  }

  const SEASONS: Layout<SeasonsField> := Layout(set f: SeasonsField | true :: f, SeasonsRow, SeasonsKind)

  /** `[challenge_rifts]`: source/program/config.cpp 474-481. */
  datatype RiftsField =
    | Active | Random | RangeStart | RangeEnd

  function RiftsRow(f: RiftsField): Row {
    match f
    case Active => Row(["SectionEnabled", "Enabled", "Active"], 0)
    case Random => Row(["MakeRiftsRandom", "Random"], 0)
    case RangeStart => Row(["RiftRangeStart", "RangeStart", "RangeMin"], 0)
    case RangeEnd => Row(["RiftRangeEnd", "RangeEnd", "RangeMax"], 0)
  }

  function RiftsKind(f: RiftsField): Kind {
    match f
    case RangeStart => Number(0, 999)
    case RangeEnd => Number(0, 999)
    case _ => Switch
  }

  const RIFTS: Layout<RiftsField> := Layout(set f: RiftsField | true :: f, RiftsRow, RiftsKind)

  /** `[events]`: source/program/config.cpp 483-490, with the flags of source/program/config.hpp 8-29. */
  datatype EventsField =
    | Active | SeasonMapMode | IgrEnabled | AnniversaryEnabled | EasterEggWorldEnabled | DoubleRiftKeystones
    | DoubleBloodShards | DoubleTreasureGoblins | DoubleBountyBags | RoyalGrandeur | LegacyOfNightmares
    | TriunesWill | Pandemonium | KanaiPowers | TrialsOfTempests | ShadowClones | FourthKanaisCubeSlot
    | EtherealItems | SoulShards | SwarmRifts | SanctifiedItems | DarkAlchemy | NestingPortals

  function EventsRow(f: EventsField): Row {
    match f
    case Active => Row(["SectionEnabled", "Enabled", "Active"], 0)
    case SeasonMapMode => Row(["SeasonMapMode", "SeasonEventMapMode", "SeasonEventMap", "SeasonMap"], 0)
    case IgrEnabled => Row(["IgrEnabled"], 0)
    case AnniversaryEnabled => Row(["AnniversaryEnabled"], 0)
    case EasterEggWorldEnabled => Row(["EasterEggWorldEnabled"], 0)
    case DoubleRiftKeystones => Row(["DoubleRiftKeystones"], 0)
    case DoubleBloodShards => Row(["DoubleBloodShards"], 0)
    case DoubleTreasureGoblins => Row(["DoubleTreasureGoblins"], 0)
    case DoubleBountyBags => Row(["DoubleBountyBags"], 0)
    case RoyalGrandeur => Row(["RoyalGrandeur"], 0)
    case LegacyOfNightmares => Row(["LegacyOfNightmares"], 0)
    case TriunesWill => Row(["TriunesWill"], 0)
    case Pandemonium => Row(["Pandemonium"], 0)
    case KanaiPowers => Row(["KanaiPowers"], 0)
    case TrialsOfTempests => Row(["TrialsOfTempests"], 0)
    case ShadowClones => Row(["ShadowClones"], 0)
    case FourthKanaisCubeSlot => Row(["FourthKanaisCubeSlot"], 0)
    case EtherealItems => Row(["EtherealItems", "EthrealItems"], 0)
    case SoulShards => Row(["SoulShards"], 0)
    case SwarmRifts => Row(["SwarmRifts"], 0)
    case SanctifiedItems => Row(["SanctifiedItems"], 0)
    case DarkAlchemy => Row(["DarkAlchemy"], 0)
    case NestingPortals => Row(["NestingPortals"], 0)
  }

  function EventsKind(f: EventsField): Kind {
    match f
    case SeasonMapMode => Special([ToText, ToBool])
    case _ => Switch
  }

  const EVENTS: Layout<EventsField> := Layout(set f: EventsField | true :: f, EventsRow, EventsKind)

  /**
   `[resolution_hack.extra]`: source/program/config.cpp 492-533, with the bounds of
   source/program/config.hpp 50-68.
   */
  datatype ExtraField =
    | WindowLeft | WindowTop | WindowWidth | WindowHeight | UiOptWidth | UiOptHeight | RenderWidth
    | RenderHeight | RefreshRate | BitDepth | MsaaLevel

  function ExtraRow(f: ExtraField): Row {
    match f
    case WindowLeft => Row(["WindowLeft", "WinLeft", "Left"], 0)
    case WindowTop => Row(["WindowTop", "WinTop", "Top"], 0)
    case WindowWidth => Row(["WindowWidth", "WinWidth", "Width"], 0)
    case WindowHeight => Row(["WindowHeight", "WinHeight", "Height"], 0)
    case UiOptWidth => Row(["UIOptWidth", "UIWidth", "UiWidth"], 0)
    case UiOptHeight => Row(["UIOptHeight", "UIHeight", "UiHeight"], 0)
    case RenderWidth => Row(["RenderWidth", "DisplayWidth", "BackbufferWidth"], 0)
    case RenderHeight => Row(["RenderHeight", "DisplayHeight", "BackbufferHeight"], 0)
    case RefreshRate => Row(["RefreshRate", "Hz"], 0)
    case BitDepth => Row(["BitDepth", "Bpp"], 0)
    case MsaaLevel => Row(["MSAALevel", "MSAA", "Msaa"], 0)
  }

  function ExtraKind(f: ExtraField): Kind {
    match f
    case RefreshRate => Number(UNSET, MAX_REFRESH_RATE)
    case BitDepth => Number(UNSET, MAX_BIT_DEPTH)
    case MsaaLevel => Number(UNSET, MAX_MSAA_LEVEL)
    case _ => Number(UNSET, MAX_DIMENSION)
  }

  const EXTRA: Layout<ExtraField> := Layout(set f: ExtraField | true :: f, ExtraRow, ExtraKind)

  /** `[rare_cheats]`: source/program/config.cpp 535-558. */
  datatype CheatsField =
    | Active | MoveSpeed | AttackSpeed | FloatingDamageColor | GuaranteedLegendaries | DropAnything
    | InstantPortal | NoCooldowns | InstantCraftActions | AnyGemAnySlot | AutoPickup | EquipAnySlot
    | UnlockAllDifficulties | EasyKillDamage | InfiniteMp | CubeNoConsume | GemUpgradeAlways
    | GemUpgradeSpeed | GemUpgradeLvl150 | EquipMultiLegendary | SuperGodMode | ExtraGrOrbsElites

  function CheatsRow(f: CheatsField): Row {
    match f
    case Active => Row(["SectionEnabled", "Enabled", "Active"], 0)
    case MoveSpeed => Row(["MovementSpeedMultiplier", "MoveSpeedMultiplier"], 0)
    case AttackSpeed => Row(["AttackSpeedMultiplier", "AtkSpeedMultiplier", "AttackSpeed"], 0)
    case FloatingDamageColor => Row(["FloatingDamageColor", "FloatingDamageColors", "FloatingDamage"], 0)
    case GuaranteedLegendaries => Row(["GuaranteedLegendaryChance"], 0)
    case DropAnything => Row(["DropAnyItems"], 0)
    case InstantPortal => Row(["InstantPortalAndBookOfCain"], 0)
    case NoCooldowns => Row(["NoCooldowns"], 0)
    case InstantCraftActions => Row(["InstantCubeAndCraftsAndEnchants"], 0)
    case AnyGemAnySlot => Row(["SocketGemsToAnySlot"], 0)
    case AutoPickup => Row(["AutoPickup"], 0)
    case EquipAnySlot => Row(["EquipAnySlot", "EquipAnyItem"], 0)
    case UnlockAllDifficulties => Row(["UnlockAllDifficulties", "UnlockDifficulties"], 0)
    case EasyKillDamage => Row(["EasyKillDamage", "EasyKillBoost"], 0)
    case InfiniteMp => Row(["InfiniteMP", "InfiniteMana", "InfiniteResource"], 0)
    case CubeNoConsume => Row(["CubeNoConsumeMaterials", "CubeNoConsume", "KanaiCubeNoConsume"], 0)
    case GemUpgradeAlways => Row(["LegendaryGemUpgradeAlways", "GemUpgradeAlways", "LegendaryGemUpgradeChance"], 0)
    case GemUpgradeSpeed => Row(["LegendaryGemUpgradeSpeed", "GemUpgradeSpeed", "GemUpgradeFast"], 0)
    case GemUpgradeLvl150 => Row(["LegendaryGemLevel150", "GemUpgradeLevel150", "GemLevel150"], 0)
    case EquipMultiLegendary =>
      Row(["EquipMultipleLegendaries", "EquipMultipleLegendaryItems", "EquipMultiLegendary"], 0)
    case SuperGodMode => Row(["SuperGodMode", "EnableSuperGodMode"], 0)
    case ExtraGrOrbsElites => Row(["ExtraGreaterRiftOrbsOnEliteKill", "ExtraGROrbsOnEliteKill", "ExtraGROrbsElites"], 0)
  }

  function CheatsKind(f: CheatsField): Kind {
    match f
    case MoveSpeed => Special([ToNumber])
    case AttackSpeed => Special([ToNumber])
    case _ => Switch
  }

  const CHEATS: Layout<CheatsField> := Layout(set f: CheatsField | true :: f, CheatsRow, CheatsKind)

  /** `[loot_modifiers]`: source/program/config.cpp 560-572. */
  datatype LootField =
    | Active | DisableAncientDrops | DisablePrimalAncientDrops | DisableTormentDrops | DisableTormentCheck
    | SuppressGiftGeneration | ForcedILevel | TieredLootRunLevel | AncientRank

  function LootRow(f: LootField): Row {
    match f
    case Active => Row(["SectionEnabled", "Enabled", "Active"], 0)
    case DisableAncientDrops => Row(["DisableAncientDrops"], 0)
    case DisablePrimalAncientDrops => Row(["DisablePrimalAncientDrops"], 0)
    case DisableTormentDrops => Row(["DisableTormentDrops"], 0)
    case DisableTormentCheck => Row(["DisableTormentCheck"], 0)
    case SuppressGiftGeneration => Row(["SuppressGiftGeneration"], 0)
    case ForcedILevel => Row(["ForcedILevel"], 0)
    case TieredLootRunLevel => Row(["TieredLootRunLevel"], 0)
    case AncientRank => Row(["AncientRank"], 0)
  }

  function LootKind(f: LootField): Kind {
    match f
    case ForcedILevel => Number(0, 70)
    case TieredLootRunLevel => Number(0, 150)
    case AncientRank => Special([ToText])
    case _ => Switch
  }

  const LOOT: Layout<LootField> := Layout(set f: LootField | true :: f, LootRow, LootKind)

  /** `[overlays]`: source/program/config_schema.cpp 243-247. */
  datatype OverlaysField =
    | Active | BuildlockerWatermark | DdmLabels | FpsLabel | VarResLabel

  function OverlaysRow(f: OverlaysField): Row {
    match f
    case Active => Row(["SectionEnabled", "Enabled", "Active"], 0)
    case BuildlockerWatermark => Row(["BuildLockerWatermark", "BuildlockerWatermark"], 0)
    case DdmLabels => Row(["DDMLabels", "DebugLabels"], 0)
    case FpsLabel => Row(["FPSLabel", "DrawFPSLabel"], 0)
    case VarResLabel => Row(["VariableResLabel", "VarResLabel", "DrawVariableResolutionLabel"], 0)
  }

  function OverlaysKind(f: OverlaysField): Kind {
    match f
    case _ => Switch
  }

  const OVERLAYS: Layout<OverlaysField> := Layout(set f: OverlaysField | true :: f, OverlaysRow, OverlaysKind)

  /** `[gui]`: source/program/config_schema.cpp 250-253. */
  datatype GuiField =
    | Enabled | Visible | AllowLeftStickPassthrough | Language

  function GuiRow(f: GuiField): Row {
    match f
    case Enabled => Row(["Enabled", "SectionEnabled", "Active"], 0)
    case Visible => Row(["Visible", "Show", "WindowVisible"], 0)
    case AllowLeftStickPassthrough =>
      Row(["AllowLeftStickPassthrough", "LeftStickPassthrough", "AllowLeftStickThrough"], 0)
    case Language => Row(["Language", "Lang", "Locale"], 0)
  }

  function GuiKind(f: GuiField): Kind {
    match f
    case Language => Special([ToText])
    case _ => Switch
  }

  const GUI: Layout<GuiField> := Layout(set f: GuiField | true :: f, GuiRow, GuiKind)

  /** `[debug]`: source/program/config_schema.cpp 256-264. */
  datatype DebugField =
    | Active | EnableCrashes | EnablePubfileDump | EnableErrorTraces | EnableDebugFlags | TagNx
    | EnableExceptionHandler | EnableOeNotificationHook | LogOeNotificationMessages

  function DebugRow(f: DebugField): Row {
    match f
    case Active => Row(["SectionEnabled", "Enabled", "Active"], 0)
    case EnableCrashes => Row(["Acknowledge_god_jester"], 0)
    case EnablePubfileDump => Row(["EnablePubFileDump", "PubFileDump"], 0)
    case EnableErrorTraces => Row(["EnableErrorTraces", "ErrorTraces"], 0)
    case EnableDebugFlags => Row(["EnableDebugFlags", "DebugFlags"], 0)
    case TagNx => Row(["SpoofNetworkFunctions", "SpoofNetwork", "TagNX"], 0)
    case EnableExceptionHandler => Row(["EnableExceptionHandler", "ExceptionHandler"], 0)
    case EnableOeNotificationHook => Row(["EnableOeNotificationHook", "OeNotificationHook"], 0)
    case LogOeNotificationMessages => Row(["LogOeNotificationMessages", "LogNotificationMessages"], 0)
  }

  function DebugKind(f: DebugField): Kind {
    match f
    case _ => Switch
  }

  const DEBUG: Layout<DebugField> := Layout(set f: DebugField | true :: f, DebugRow, DebugKind)

  /** `[resolution_hack]` without its `extra` table: source/program/config_schema.cpp 267-274. */
  datatype ResolutionField =
    | Active | OutputTarget | OutputHandheldScale | MinResScale | MaxResScale | ClampTextureResolution
    | SpoofDocked | ExpScheduler | ExtraTable

  function ResolutionRow(f: ResolutionField): Row {
    match f
    case Active => Row(["SectionEnabled", "Enabled", "Active"], 0)
    case OutputTarget =>
      Row(["OutputTarget", "OutputHeight", "Height", "OutputVertical", "Vertical", "OutputRes", "OutputResolution",
           "OutputWidth", "Width"], 0)
    case OutputHandheldScale => Row(["OutputHandheldScale", "HandheldScale", "HandheldOutputScale"], 0)
    case MinResScale => Row(
      ["MinScale", "MinimumScale", "MinResScale", "MinimumResScale", "MinResolutionScale", "MinimumResolutionScale"], 2)
    case MaxResScale => Row(
      ["MaxScale", "MaximumScale", "MaxResScale", "MaximumResScale", "MaxResolutionScale", "MaximumResolutionScale"], 2)
    case ClampTextureResolution =>
      Row(["ClampTextureResolution", "ClampTextureHeight", "ClampTexture", "ClampTextureRes"], 0)
    case SpoofDocked => Row(["SpoofDocked", "SpoofDock", "DockedSpoof"], 0)
    case ExpScheduler => Row(["ExperimentalScheduler", "ExpScheduler", "ExperimentalScheduling", "ExpScheduling"], 0)
    case ExtraTable => Row(["extra"], 0)
  }

  function ResolutionKind(f: ResolutionField): Kind {
    match f
    case Active => Switch
    case SpoofDocked => Switch
    case ExpScheduler => Switch
    case OutputTarget => Special([ToNumber, ToText])
    case ExtraTable => Special([])
    case _ => Special([ToNumber])
  }

  const RESOLUTION: Layout<ResolutionField> := Layout(set f: ResolutionField | true :: f, ResolutionRow, ResolutionKind)
}
