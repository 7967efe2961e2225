/**
 In every section of the configuration all aliases are different, so that the layouts are well formed.

 Two names are told apart by a code made of their length and two of their characters; for the larger
 sections the codes of all names are listed, computed in groups, and compared as numbers.
 */
module LayoutAliases {
  import opened Settings
  import opened ConfigLayouts

  /** The character at a place, and zero beyond the end. */
  function CharAt(s: string, q: int): nat {
    if 0 <= q < |s| then s[q] as nat else 0
  }

  /**
   A number for a name, made of its length, the character `p` places from its start and that `q` places
   from its end.
   */
  function Code(s: string, p: nat, q: nat): nat {
    |s| * 1000000 + CharAt(s, p) * 1000 + CharAt(s, |s| - 1 - q)
  }

  lemma SeasonsApart(f: SeasonsField, g: SeasonsField, i: nat, j: nat)
    requires i < |SeasonsRow(f).aliases| && j < |SeasonsRow(g).aliases|
    requires SeasonsRow(f).aliases[i] == SeasonsRow(g).aliases[j]
    ensures f == g && i == j
  {
    var a, b := SeasonsRow(f).aliases[i], SeasonsRow(g).aliases[j];
    assert |a| == |b|;
    assert CharAt(a, 0) == CharAt(b, 0);
    assert CharAt(a, 6) == CharAt(b, 6);
  }

  lemma RiftsApart(f: RiftsField, g: RiftsField, i: nat, j: nat)
    requires i < |RiftsRow(f).aliases| && j < |RiftsRow(g).aliases|
    requires RiftsRow(f).aliases[i] == RiftsRow(g).aliases[j]
    ensures f == g && i == j
  {
    var a, b := RiftsRow(f).aliases[i], RiftsRow(g).aliases[j];
    assert |a| == |b|;
    assert CharAt(a, 0) == CharAt(b, 0);
    assert CharAt(a, 6) == CharAt(b, 6);
  }

  /** The codes of the aliases of a field. */
  function EventsCodes(f: EventsField): seq<nat> {
    match f
    case Active => [14083101, 7069101, 6065118]
    case SeasonMapMode => [13083100, 18083100, 14083097, 9083097]
    case IgrEnabled => [10073101]
    case AnniversaryEnabled => [18065101]
    case EasterEggWorldEnabled => [21069101]
    case DoubleRiftKeystones => [19068101]
    case DoubleBloodShards => [17068100]
    case DoubleTreasureGoblins => [21068110]
    case DoubleBountyBags => [16068103]
    case RoyalGrandeur => [13082117]
    case LegacyOfNightmares => [18076101]
    case TriunesWill => [11084108]
    case Pandemonium => [11080117]
    case KanaiPowers => [11075114]
    case TrialsOfTempests => [16084116]
    case ShadowClones => [12083101]
    case FourthKanaisCubeSlot => [20070111]
    case EtherealItems => [13069109, 12069109]
    case SoulShards => [10083100]
    case SwarmRifts => [10083116]
    case SanctifiedItems => [15083109]
    case DarkAlchemy => [11068109]
    case NestingPortals => [14078108]
  }

  lemma EventsCodedBonuses(f: EventsField, i: nat)
    requires f.Active? || f.SeasonMapMode? || f.IgrEnabled? || f.AnniversaryEnabled? || f.EasterEggWorldEnabled? ||
      f.DoubleRiftKeystones? || f.DoubleBloodShards? || f.DoubleTreasureGoblins?
    requires i < |EventsRow(f).aliases|
    ensures i < |EventsCodes(f)| && Code(EventsRow(f).aliases[i], 0, 1) == EventsCodes(f)[i]
  {
  }

  lemma EventsCodedEarlyThemes(f: EventsField, i: nat)
    requires f.DoubleBountyBags? || f.RoyalGrandeur? || f.LegacyOfNightmares? || f.TriunesWill? ||
      f.Pandemonium? || f.KanaiPowers? || f.TrialsOfTempests? || f.ShadowClones?
    requires i < |EventsRow(f).aliases|
    ensures i < |EventsCodes(f)| && Code(EventsRow(f).aliases[i], 0, 1) == EventsCodes(f)[i]
  {
  }

  lemma EventsCodedLateThemes(f: EventsField, i: nat)
    requires f.FourthKanaisCubeSlot? || f.EtherealItems? || f.SoulShards? || f.SwarmRifts? || f.SanctifiedItems? ||
      f.DarkAlchemy? || f.NestingPortals?
    requires i < |EventsRow(f).aliases|
    ensures i < |EventsCodes(f)| && Code(EventsRow(f).aliases[i], 0, 1) == EventsCodes(f)[i]
  {
  }

  lemma EventsCoded(f: EventsField, i: nat)
    requires i < |EventsRow(f).aliases|
    ensures i < |EventsCodes(f)| && Code(EventsRow(f).aliases[i], 0, 1) == EventsCodes(f)[i]
  {
    if f.Active? || f.SeasonMapMode? || f.IgrEnabled? || f.AnniversaryEnabled? || f.EasterEggWorldEnabled? ||
      f.DoubleRiftKeystones? || f.DoubleBloodShards? || f.DoubleTreasureGoblins? {
      EventsCodedBonuses(f, i);
    } else if f.DoubleBountyBags? || f.RoyalGrandeur? || f.LegacyOfNightmares? || f.TriunesWill? || f.Pandemonium? ||
      f.KanaiPowers? || f.TrialsOfTempests? || f.ShadowClones? {
      EventsCodedEarlyThemes(f, i);
    } else {
      EventsCodedLateThemes(f, i);
    }
  }

  lemma EventsCodesDiffer(f: EventsField, g: EventsField, i: nat, j: nat)
    requires i < |EventsCodes(f)| && j < |EventsCodes(g)| && EventsCodes(f)[i] == EventsCodes(g)[j]
    ensures f == g && i == j
  {
  }

  lemma EventsApart(f: EventsField, g: EventsField, i: nat, j: nat)
    requires i < |EventsRow(f).aliases| && j < |EventsRow(g).aliases|
    requires EventsRow(f).aliases[i] == EventsRow(g).aliases[j]
    ensures f == g && i == j
  {
    EventsCoded(f, i);
    EventsCoded(g, j);
    EventsCodesDiffer(f, g, i, j);
  }

  /** The codes of the aliases of a field. */
  function ExtraCodes(f: ExtraField): seq<nat> {
    match f
    case WindowLeft => [10105101, 7105101, 4101101]
    case WindowTop => [9105084, 6105084, 3111084]
    case WindowWidth => [11105100, 8105100, 5105100]
    case WindowHeight => [12105103, 9105103, 6101103]
    case UiOptWidth => [10073100, 7073100, 7105100]
    case UiOptHeight => [11073103, 8073103, 8105103]
    case RenderWidth => [11101100, 12105100, 15097100]
    case RenderHeight => [12101103, 13105103, 16097103]
    case RefreshRate => [11101097, 2122000]
    case BitDepth => [8105112, 3112066]
    case MsaaLevel => [9083118, 4083083, 4115115]
  }

  lemma ExtraCodedWindow(f: ExtraField, i: nat)
    requires f.WindowLeft? || f.WindowTop? || f.WindowWidth? || f.WindowHeight?
    requires i < |ExtraRow(f).aliases|
    ensures i < |ExtraCodes(f)| && Code(ExtraRow(f).aliases[i], 1, 2) == ExtraCodes(f)[i]
  {
  }

  lemma ExtraCodedSizes(f: ExtraField, i: nat)
    requires f.UiOptWidth? || f.UiOptHeight? || f.RenderWidth? || f.RenderHeight?
    requires i < |ExtraRow(f).aliases|
    ensures i < |ExtraCodes(f)| && Code(ExtraRow(f).aliases[i], 1, 2) == ExtraCodes(f)[i]
  {
  }

  lemma ExtraCodedFormat(f: ExtraField, i: nat)
    requires f.RefreshRate? || f.BitDepth? || f.MsaaLevel?
    requires i < |ExtraRow(f).aliases|
    ensures i < |ExtraCodes(f)| && Code(ExtraRow(f).aliases[i], 1, 2) == ExtraCodes(f)[i]
  {
  }

  lemma ExtraCoded(f: ExtraField, i: nat)
    requires i < |ExtraRow(f).aliases|
    ensures i < |ExtraCodes(f)| && Code(ExtraRow(f).aliases[i], 1, 2) == ExtraCodes(f)[i]
  {
    if f.WindowLeft? || f.WindowTop? || f.WindowWidth? || f.WindowHeight? {
      ExtraCodedWindow(f, i);
    } else if f.UiOptWidth? || f.UiOptHeight? || f.RenderWidth? || f.RenderHeight? {
      ExtraCodedSizes(f, i);
    } else {
      ExtraCodedFormat(f, i);
    }
  }

  lemma ExtraCodesDiffer(f: ExtraField, g: ExtraField, i: nat, j: nat)
    requires i < |ExtraCodes(f)| && j < |ExtraCodes(g)| && ExtraCodes(f)[i] == ExtraCodes(g)[j]
    ensures f == g && i == j
  {
  }

  lemma ExtraApart(f: ExtraField, g: ExtraField, i: nat, j: nat)
    requires i < |ExtraRow(f).aliases| && j < |ExtraRow(g).aliases|
    requires ExtraRow(f).aliases[i] == ExtraRow(g).aliases[j]
    ensures f == g && i == j
  {
    ExtraCoded(f, i);
    ExtraCoded(g, j);
    ExtraCodesDiffer(f, g, i, j);
  }

  /** The codes of the aliases of a field. */
  function CheatsCodes(f: CheatsField): seq<nat> {
    match f
    case Active => [14083100, 7069100, 6065101]
    case MoveSpeed => [23077114, 19077114]
    case AttackSpeed => [21065114, 18065114, 11065100]
    case FloatingDamageColor => [19070114, 20070115, 14070101]
    case GuaranteedLegendaries => [25071101]
    case DropAnything => [12068115]
    case InstantPortal => [26073110]
    case NoCooldowns => [11078115]
    case InstantCraftActions => [31073115]
    case AnyGemAnySlot => [19083116]
    case AutoPickup => [10065112]
    case EquipAnySlot => [12069116, 12069109]
    case UnlockAllDifficulties => [21085115, 18085115]
    case EasyKillDamage => [14069101, 13069116]
    case InfiniteMp => [10073080, 12073097, 16073101]
    case CubeNoConsume => [22067115, 13067101, 18075101]
    case GemUpgradeAlways => [25076115, 16071115, 25076101]
    case GemUpgradeSpeed => [24076100, 15071100, 14071116]
    case GemUpgradeLvl150 => [20076048, 18071048, 11071048]
    case EquipMultiLegendary => [24069115, 27069115, 19069121]
    case SuperGodMode => [12083101, 18069101]
    case ExtraGrOrbsElites => [31069108, 22069108, 17069115]
  }

  lemma CheatsCodedCombat(f: CheatsField, i: nat)
    requires f.Active? || f.MoveSpeed? || f.AttackSpeed? || f.FloatingDamageColor? || f.GuaranteedLegendaries? ||
      f.DropAnything?
    requires i < |CheatsRow(f).aliases|
    ensures i < |CheatsCodes(f)| && Code(CheatsRow(f).aliases[i], 0, 0) == CheatsCodes(f)[i]
  {
  }

  lemma CheatsCodedShortcuts(f: CheatsField, i: nat)
    requires f.InstantPortal? || f.NoCooldowns? || f.InstantCraftActions? || f.AnyGemAnySlot? || f.AutoPickup? ||
      f.EquipAnySlot?
    requires i < |CheatsRow(f).aliases|
    ensures i < |CheatsCodes(f)| && Code(CheatsRow(f).aliases[i], 0, 0) == CheatsCodes(f)[i]
  {
  }

  lemma CheatsCodedPowers(f: CheatsField, i: nat)
    requires f.UnlockAllDifficulties? || f.EasyKillDamage? || f.InfiniteMp?
    requires i < |CheatsRow(f).aliases|
    ensures i < |CheatsCodes(f)| && Code(CheatsRow(f).aliases[i], 0, 0) == CheatsCodes(f)[i]
  {
  }

  lemma CheatsCodedUpgrades(f: CheatsField, i: nat)
    requires f.CubeNoConsume? || f.GemUpgradeAlways? || f.GemUpgradeSpeed?
    requires i < |CheatsRow(f).aliases|
    ensures i < |CheatsCodes(f)| && Code(CheatsRow(f).aliases[i], 0, 0) == CheatsCodes(f)[i]
  {
  }

  lemma CheatsCodedEquipment(f: CheatsField, i: nat)
    requires f.GemUpgradeLvl150? || f.EquipMultiLegendary?
    requires i < |CheatsRow(f).aliases|
    ensures i < |CheatsCodes(f)| && Code(CheatsRow(f).aliases[i], 0, 0) == CheatsCodes(f)[i]
  {
  }

  lemma CheatsCodedModes(f: CheatsField, i: nat)
    requires f.SuperGodMode? || f.ExtraGrOrbsElites?
    requires i < |CheatsRow(f).aliases|
    ensures i < |CheatsCodes(f)| && Code(CheatsRow(f).aliases[i], 0, 0) == CheatsCodes(f)[i]
  {
  }

  lemma CheatsCoded(f: CheatsField, i: nat)
    requires i < |CheatsRow(f).aliases|
    ensures i < |CheatsCodes(f)| && Code(CheatsRow(f).aliases[i], 0, 0) == CheatsCodes(f)[i]
  {
    if f.Active? || f.MoveSpeed? || f.AttackSpeed? || f.FloatingDamageColor? || f.GuaranteedLegendaries? ||
      f.DropAnything? {
      CheatsCodedCombat(f, i);
    } else if f.InstantPortal? || f.NoCooldowns? || f.InstantCraftActions? || f.AnyGemAnySlot? || f.AutoPickup? ||
      f.EquipAnySlot? {
      CheatsCodedShortcuts(f, i);
    } else if f.UnlockAllDifficulties? || f.EasyKillDamage? || f.InfiniteMp? {
      CheatsCodedPowers(f, i);
    } else if f.CubeNoConsume? || f.GemUpgradeAlways? || f.GemUpgradeSpeed? {
      CheatsCodedUpgrades(f, i);
    } else if f.GemUpgradeLvl150? || f.EquipMultiLegendary? {
      CheatsCodedEquipment(f, i);
    } else {
      CheatsCodedModes(f, i);
    }
  }

  lemma CheatsShortCodesDiffer(f: CheatsField, g: CheatsField, i: nat, j: nat)
    requires i < |CheatsCodes(f)| && j < |CheatsCodes(g)| && CheatsCodes(f)[i] == CheatsCodes(g)[j] < 18000000
    ensures f == g && i == j
  {
  }

  lemma CheatsLongCodesDiffer(f: CheatsField, g: CheatsField, i: nat, j: nat)
    requires i < |CheatsCodes(f)| && j < |CheatsCodes(g)| && CheatsCodes(f)[i] == CheatsCodes(g)[j] >= 18000000
    ensures f == g && i == j
  {
  }

  lemma CheatsCodesDiffer(f: CheatsField, g: CheatsField, i: nat, j: nat)
    requires i < |CheatsCodes(f)| && j < |CheatsCodes(g)| && CheatsCodes(f)[i] == CheatsCodes(g)[j]
    ensures f == g && i == j
  {
    if CheatsCodes(f)[i] < 18000000 {
      CheatsShortCodesDiffer(f, g, i, j);
    } else {
      CheatsLongCodesDiffer(f, g, i, j);
    }
  }

  lemma CheatsApart(f: CheatsField, g: CheatsField, i: nat, j: nat)
    requires i < |CheatsRow(f).aliases| && j < |CheatsRow(g).aliases|
    requires CheatsRow(f).aliases[i] == CheatsRow(g).aliases[j]
    ensures f == g && i == j
  {
    CheatsCoded(f, i);
    CheatsCoded(g, j);
    CheatsCodesDiffer(f, g, i, j);
  }

  lemma LootApart(f: LootField, g: LootField, i: nat, j: nat)
    requires i < |LootRow(f).aliases| && j < |LootRow(g).aliases|
    requires LootRow(f).aliases[i] == LootRow(g).aliases[j]
    ensures f == g && i == j
  {
    var a, b := LootRow(f).aliases[i], LootRow(g).aliases[j];
    assert |a| == |b|;
    assert CharAt(a, 7) == CharAt(b, 7);
    assert CharAt(a, 14) == CharAt(b, 14);
  }

  lemma OverlaysApart(f: OverlaysField, g: OverlaysField, i: nat, j: nat)
    requires i < |OverlaysRow(f).aliases| && j < |OverlaysRow(g).aliases|
    requires OverlaysRow(f).aliases[i] == OverlaysRow(g).aliases[j]
    ensures f == g && i == j
  {
    var a, b := OverlaysRow(f).aliases[i], OverlaysRow(g).aliases[j];
    assert |a| == |b|;
    assert CharAt(a, 5) == CharAt(b, 5);
  }

  lemma GuiApart(f: GuiField, g: GuiField, i: nat, j: nat)
    requires i < |GuiRow(f).aliases| && j < |GuiRow(g).aliases|
    requires GuiRow(f).aliases[i] == GuiRow(g).aliases[j]
    ensures f == g && i == j
  {
    var a, b := GuiRow(f).aliases[i], GuiRow(g).aliases[j];
    assert |a| == |b|;
    assert CharAt(a, 0) == CharAt(b, 0);
  }

  lemma DebugApart(f: DebugField, g: DebugField, i: nat, j: nat)
    requires i < |DebugRow(f).aliases| && j < |DebugRow(g).aliases|
    requires DebugRow(f).aliases[i] == DebugRow(g).aliases[j]
    ensures f == g && i == j
  {
    var a, b := DebugRow(f).aliases[i], DebugRow(g).aliases[j];
    assert |a| == |b|;
    assert CharAt(a, 6) == CharAt(b, 6);
  }

  /** The codes of the aliases of a field. */
  function ResolutionCodes(f: ResolutionField): seq<nat> {
    match f
    case Active => [14101101, 7110101, 6099118]
    case OutputTarget => [12117101, 12117104, 6101104, 14117097, 8101097, 9117101, 16117111, 11117116, 5105116]
    case OutputHandheldScale => [19117108, 13097108, 19097108]
    case MinResScale => [8105108, 12105108, 11105108, 15105108, 18105108, 22105108]
    case MaxResScale => [8097108, 12097108, 11097108, 15097108, 18097108, 22097108]
    case ClampTextureResolution => [22108111, 18108104, 12108114, 15108101]
    case SpoofDocked => [11112101, 9112099, 11111111]
    case ExpScheduler => [21120101, 12120101, 22120110, 13120110]
    case ExtraTable => [5120114]
  }

  lemma ResolutionCodedTarget(f: ResolutionField, i: nat)
    requires f.Active? || f.OutputTarget?
    requires i < |ResolutionRow(f).aliases|
    ensures i < |ResolutionCodes(f)| && Code(ResolutionRow(f).aliases[i], 1, 1) == ResolutionCodes(f)[i]
  {
  }

  lemma ResolutionCodedSizes(f: ResolutionField, i: nat)
    requires f.OutputHandheldScale? || f.ClampTextureResolution?
    requires i < |ResolutionRow(f).aliases|
    ensures i < |ResolutionCodes(f)| && Code(ResolutionRow(f).aliases[i], 1, 1) == ResolutionCodes(f)[i]
  {
  }

  lemma ResolutionCodedLower(f: ResolutionField, i: nat)
    requires f.MinResScale?
    requires i < |ResolutionRow(f).aliases|
    ensures i < |ResolutionCodes(f)| && Code(ResolutionRow(f).aliases[i], 1, 1) == ResolutionCodes(f)[i]
  {
  }

  lemma ResolutionCodedUpper(f: ResolutionField, i: nat)
    requires f.MaxResScale?
    requires i < |ResolutionRow(f).aliases|
    ensures i < |ResolutionCodes(f)| && Code(ResolutionRow(f).aliases[i], 1, 1) == ResolutionCodes(f)[i]
  {
  }

  lemma ResolutionCodedSwitches(f: ResolutionField, i: nat)
    requires f.SpoofDocked? || f.ExpScheduler? || f.ExtraTable?
    requires i < |ResolutionRow(f).aliases|
    ensures i < |ResolutionCodes(f)| && Code(ResolutionRow(f).aliases[i], 1, 1) == ResolutionCodes(f)[i]
  {
  }

  lemma ResolutionCoded(f: ResolutionField, i: nat)
    requires i < |ResolutionRow(f).aliases|
    ensures i < |ResolutionCodes(f)| && Code(ResolutionRow(f).aliases[i], 1, 1) == ResolutionCodes(f)[i]
  {
    if f.Active? || f.OutputTarget? {
      ResolutionCodedTarget(f, i);
    } else if f.OutputHandheldScale? || f.ClampTextureResolution? {
      ResolutionCodedSizes(f, i);
    } else if f.MinResScale? {
      ResolutionCodedLower(f, i);
    } else if f.MaxResScale? {
      ResolutionCodedUpper(f, i);
    } else {
      ResolutionCodedSwitches(f, i);
    }
  }

  lemma ResolutionShortCodesDiffer(f: ResolutionField, g: ResolutionField, i: nat, j: nat)
    requires i < |ResolutionCodes(f)| && j < |ResolutionCodes(g)|
    requires ResolutionCodes(f)[i] == ResolutionCodes(g)[j] < 13000000
    ensures f == g && i == j
  {
  }

  lemma ResolutionLongCodesDiffer(f: ResolutionField, g: ResolutionField, i: nat, j: nat)
    requires i < |ResolutionCodes(f)| && j < |ResolutionCodes(g)|
    requires ResolutionCodes(f)[i] == ResolutionCodes(g)[j] >= 13000000
    ensures f == g && i == j
  {
  }

  lemma ResolutionCodesDiffer(f: ResolutionField, g: ResolutionField, i: nat, j: nat)
    requires i < |ResolutionCodes(f)| && j < |ResolutionCodes(g)| && ResolutionCodes(f)[i] == ResolutionCodes(g)[j]
    ensures f == g && i == j
  {
    if ResolutionCodes(f)[i] < 13000000 {
      ResolutionShortCodesDiffer(f, g, i, j);
    } else {
      ResolutionLongCodesDiffer(f, g, i, j);
    }
  }

  lemma ResolutionApart(f: ResolutionField, g: ResolutionField, i: nat, j: nat)
    requires i < |ResolutionRow(f).aliases| && j < |ResolutionRow(g).aliases|
    requires ResolutionRow(f).aliases[i] == ResolutionRow(g).aliases[j]
    ensures f == g && i == j
  {
    ResolutionCoded(f, i);
    ResolutionCoded(g, j);
    ResolutionCodesDiffer(f, g, i, j);
  }

  // ----- the layouts are well formed

  lemma SeasonsAliasesApart()
    ensures AliasesApart(SEASONS)
  {
    forall f: SeasonsField, g: SeasonsField, i: nat, j: nat |
      i < |SeasonsRow(f).aliases| && j < |SeasonsRow(g).aliases| && SeasonsRow(f).aliases[i] == SeasonsRow(g).aliases[j]
      ensures f == g && i == j
    {
      SeasonsApart(f, g, i, j);
    }
  }

  lemma SeasonsWellFormed()
    ensures WellFormed(SEASONS)
  {
    SeasonsAliasesApart();
    ApartIsWellFormed(SEASONS);
  }

  lemma RiftsAliasesApart()
    ensures AliasesApart(RIFTS)
  {
    forall f: RiftsField, g: RiftsField, i: nat, j: nat |
      i < |RiftsRow(f).aliases| && j < |RiftsRow(g).aliases| && RiftsRow(f).aliases[i] == RiftsRow(g).aliases[j]
      ensures f == g && i == j
    {
      RiftsApart(f, g, i, j);
    }
  }

  lemma RiftsWellFormed()
    ensures WellFormed(RIFTS)
  {
    RiftsAliasesApart();
    ApartIsWellFormed(RIFTS);
  }

  lemma EventsAliasesApart()
    ensures AliasesApart(EVENTS)
  {
    forall f: EventsField, g: EventsField, i: nat, j: nat |
      i < |EventsRow(f).aliases| && j < |EventsRow(g).aliases| && EventsRow(f).aliases[i] == EventsRow(g).aliases[j]
      ensures f == g && i == j
    {
      EventsApart(f, g, i, j);
    }
  }

  lemma EventsWellFormed()
    ensures WellFormed(EVENTS)
  {
    EventsAliasesApart();
    ApartIsWellFormed(EVENTS);
  }

  lemma ExtraAliasesApart()
    ensures AliasesApart(EXTRA)
  {
    forall f: ExtraField, g: ExtraField, i: nat, j: nat |
      i < |ExtraRow(f).aliases| && j < |ExtraRow(g).aliases| && ExtraRow(f).aliases[i] == ExtraRow(g).aliases[j]
      ensures f == g && i == j
    {
      ExtraApart(f, g, i, j);
    }
  }

  lemma ExtraWellFormed()
    ensures WellFormed(EXTRA)
  {
    ExtraAliasesApart();
    ApartIsWellFormed(EXTRA);
  }

  lemma CheatsAliasesApart()
    ensures AliasesApart(CHEATS)
  {
    forall f: CheatsField, g: CheatsField, i: nat, j: nat |
      i < |CheatsRow(f).aliases| && j < |CheatsRow(g).aliases| && CheatsRow(f).aliases[i] == CheatsRow(g).aliases[j]
      ensures f == g && i == j
    {
      CheatsApart(f, g, i, j);
    }
  }

  lemma CheatsWellFormed()
    ensures WellFormed(CHEATS)
  {
    CheatsAliasesApart();
    ApartIsWellFormed(CHEATS);
  }

  lemma LootAliasesApart()
    ensures AliasesApart(LOOT)
  {
    forall f: LootField, g: LootField, i: nat, j: nat |
      i < |LootRow(f).aliases| && j < |LootRow(g).aliases| && LootRow(f).aliases[i] == LootRow(g).aliases[j]
      ensures f == g && i == j
    {
      LootApart(f, g, i, j);
    }
  }

  lemma LootWellFormed()
    ensures WellFormed(LOOT)
  {
    LootAliasesApart();
    ApartIsWellFormed(LOOT);
  }

  lemma OverlaysAliasesApart()
    ensures AliasesApart(OVERLAYS)
  {
    forall f: OverlaysField, g: OverlaysField, i: nat, j: nat |
      i < |OverlaysRow(f).aliases| && j < |OverlaysRow(g).aliases| &&
      OverlaysRow(f).aliases[i] == OverlaysRow(g).aliases[j]
      ensures f == g && i == j
    {
      OverlaysApart(f, g, i, j);
    }
  }

  lemma OverlaysWellFormed()
    ensures WellFormed(OVERLAYS)
  {
    OverlaysAliasesApart();
    ApartIsWellFormed(OVERLAYS);
  }

  lemma GuiAliasesApart()
    ensures AliasesApart(GUI)
  {
    forall f: GuiField, g: GuiField, i: nat, j: nat |
      i < |GuiRow(f).aliases| && j < |GuiRow(g).aliases| && GuiRow(f).aliases[i] == GuiRow(g).aliases[j]
      ensures f == g && i == j
    {
      GuiApart(f, g, i, j);
    }
  }

  lemma GuiWellFormed()
    ensures WellFormed(GUI)
  {
    GuiAliasesApart();
    ApartIsWellFormed(GUI);
  }

  lemma DebugAliasesApart()
    ensures AliasesApart(DEBUG)
  {
    forall f: DebugField, g: DebugField, i: nat, j: nat |
      i < |DebugRow(f).aliases| && j < |DebugRow(g).aliases| && DebugRow(f).aliases[i] == DebugRow(g).aliases[j]
      ensures f == g && i == j
    {
      DebugApart(f, g, i, j);
    }
  }

  lemma DebugWellFormed()
    ensures WellFormed(DEBUG)
  {
    DebugAliasesApart();
    ApartIsWellFormed(DEBUG);
  }

  lemma ResolutionAliasesApart()
    ensures AliasesApart(RESOLUTION)
  {
    forall f: ResolutionField, g: ResolutionField, i: nat, j: nat |
      i < |ResolutionRow(f).aliases| && j < |ResolutionRow(g).aliases| &&
      ResolutionRow(f).aliases[i] == ResolutionRow(g).aliases[j]
      ensures f == g && i == j
    {
      ResolutionApart(f, g, i, j);
    }
  }

  lemma ResolutionWellFormed()
    ensures WellFormed(RESOLUTION)
  {
    ResolutionAliasesApart();
    ApartIsWellFormed(RESOLUTION);
  }

  lemma LayoutsWellFormed()
    ensures WellFormed(SEASONS) && WellFormed(RIFTS) && WellFormed(EVENTS) && WellFormed(EXTRA)
    ensures WellFormed(CHEATS) && WellFormed(LOOT) && WellFormed(OVERLAYS) && WellFormed(GUI)
    ensures WellFormed(DEBUG) && WellFormed(RESOLUTION)
  {
    SeasonsWellFormed();
    RiftsWellFormed();
    EventsWellFormed();
    ExtraWellFormed();
    CheatsWellFormed();
    LootWellFormed();
    OverlaysWellFormed();
    GuiWellFormed();
    DebugWellFormed();
    ResolutionWellFormed();
  }

  /** No two aliases of a section are the same, in any of the ten tables. */
  lemma AllAliasesApart()
    ensures AliasesApart(SEASONS) && AliasesApart(RIFTS) && AliasesApart(EVENTS) && AliasesApart(EXTRA)
    ensures AliasesApart(CHEATS) && AliasesApart(LOOT) && AliasesApart(OVERLAYS) && AliasesApart(GUI)
    ensures AliasesApart(DEBUG) && AliasesApart(RESOLUTION)
  {
    SeasonsAliasesApart();
    RiftsAliasesApart();
    EventsAliasesApart();
    ExtraAliasesApart();
    CheatsAliasesApart();
    LootAliasesApart();
    OverlaysAliasesApart();
    GuiAliasesApart();
    DebugAliasesApart();
    ResolutionAliasesApart();
  }
}
