/** `Applied` follows the rules of the configuration file, and nothing else does. */
module ConfigFollows {
  import opened Options
  import opened Decimals
  import opened Toml
  import opened Spelling
  import opened Settings
  import opened ConfigLayouts
  import opened SeasonEvents
  import opened PatchConfigs
  import opened LayoutAliases
  import opened ConfigReapply
  import opened ConfigRules

  // ----- the lookups

  lemma ReadingIsFirst<T>(t: Tab, keys: seq<string>, conv: Node -> Option<T>)
    ensures Nothing(t, keys, conv) <==> ReadValue(t, keys, conv).None?
    ensures forall v :: First(t, keys, conv, v) <==> ReadValue(t, keys, conv) == Some(v)
  {
    FirstAliasWins(t, keys, conv);
    forall v ensures First(t, keys, conv, v) <==> ReadValue(t, keys, conv) == Some(v) {
      if First(t, keys, conv, v) {
        var i :| 0 <= i < |keys| && keys[i] in t && conv(t[keys[i]]) == Some(v) && Nothing(t, keys[..i], conv);
        forall j | 0 <= j < i ensures Reading(t, keys[j], conv).None? {
          assert keys[..i][j] == keys[j];
        }
        FirstAlias(t, keys, conv, i);
      }
      if ReadValue(t, keys, conv) == Some(v) {
        var i :| 0 <= i < |keys| && Reading(t, keys[i], conv) == Some(v) &&
          forall j :: 0 <= j < i ==> Reading(t, keys[j], conv).None?;
        assert Nothing(t, keys[..i], conv) by {
          forall j | 0 <= j < i && keys[..i][j] in t ensures conv(t[keys[..i][j]]).None? {
            assert Reading(t, keys[j], conv).None?;
          }
        }
      }
    }
  }

  lemma NumberIsFirst(lib: Library, t: Tab, keys: seq<string>)
    ensures NoNumber(lib, t, keys) <==> ReadNumber(lib, t, keys).None?
    ensures forall v :: FirstNumber(lib, t, keys, v) <==> ReadNumber(lib, t, keys) == Some(v)
  {
    var conv := n => lib.AsNumber(n);
    ReadingIsFirst(t, keys, conv);
    forall ks: seq<string> ensures NoNumber(lib, t, ks) <==> Nothing(t, ks, conv) {
      forall j | 0 <= j < |ks| && ks[j] in t
        ensures conv(t[ks[j]]).None? <==> lib.asDouble(t[ks[j]]).None? && lib.asInt(t[ks[j]]).None?
      {
      }
    }
    forall v ensures FirstNumber(lib, t, keys, v) <==> First(t, keys, conv, v) {
    }
  }

  // ----- the kinds of fields

  lemma SwitchByReading<F>(lib: Library, t: Tab, keys: seq<string>, f: F, st: Settings<F>, r: Settings<F>)
    ensures SwitchRule(lib, t, keys, f, st, r) <==> (f in r.on <==> ReadBool(lib, t, keys, f in st.on))
  {
    ReadingIsFirst(t, keys, lib.asBool);
  }

  lemma BoundedWholeIsTruncation(v: real, lo: int, hi: int, i: int)
    requires lo <= hi
    ensures BoundedWhole(v, lo, hi, i) <==> i == Truncate(ClampReal(v, lo as real, hi as real))
  {
  }

  lemma IntegerByReading(lib: Library, t: Tab, keys: seq<string>, lo: int, hi: int, before: int, after: int)
    requires lo <= hi
    ensures NumberRule(lib, t, keys, lo, hi, before, after) <==> after == ReadInt(lib, t, keys, before, lo, hi)
  {
    NumberIsFirst(lib, t, keys);
    if ReadNumber(lib, t, keys).Some? {
      BoundedWholeIsTruncation(ReadNumber(lib, t, keys).value, lo, hi, after);
    }
  }

  /** One field of a layout is as the rule for its kind says. */
  ghost predicate FieldRule<F(!new)>(lib: Library, l: Layout<F>, t: Tab, f: F, st: Settings<F>, r: Settings<F>) {
    match l.kind(f)
    case Switch => SwitchRule(lib, t, l.row(f).aliases, f, st, r)
    case Number(lo, hi) => NumberRule(lib, t, l.row(f).aliases, lo, hi, Num(st, f), Num(r, f))
    case Special(_) => true
  }

  /** The fields one by one make the section as a whole. */
  lemma FieldsByReading<F(!new)>(lib: Library, l: Layout<F>, t: Tab, st: Settings<F>, r: Settings<F>)
    requires WellFormed(l) && Typed(l, r)
    ensures (forall f :: f in l.all ==> FieldRule(lib, l, t, f, st, r)) <==> r == ReadSettings(lib, l, Some(t), st)
  {
    var s := ReadSettings(lib, l, Some(t), st);
    forall f | f in l.all
      ensures FieldRule(lib, l, t, f, st, r) <==>
        (l.kind(f).Switch? ==> (f in r.on <==> f in s.on)) && (l.kind(f).Number? ==> r.num[f] == s.num[f])
    {
      match l.kind(f) {
        case Switch => SwitchByReading(lib, t, l.row(f).aliases, f, st, r);
        case Number(lo, hi) => IntegerByReading(lib, t, l.row(f).aliases, lo, hi, Num(st, f), Num(r, f));
        case Special(_) =>
      }
    }
    if forall f :: f in l.all ==> FieldRule(lib, l, t, f, st, r) {
      assert r.on == s.on;
      assert r.num == s.num;
    }
  }

  // ----- the sections

  lemma SeasonsByRule(lib: Library, t: Tab, st: Settings<SeasonsField>, r: Settings<SeasonsField>)
    requires Typed(SEASONS, r)
    ensures (forall f :: SeasonsRule(lib, t, f, st, r)) <==> r == ReadSettings(lib, SEASONS, Some(t), st)
  {
    SeasonsWellFormed();
    forall f ensures SeasonsRule(lib, t, f, st, r) <==> FieldRule(lib, SEASONS, t, f, st, r) {
    }
    FieldsByReading(lib, SEASONS, t, st, r);
  }

  lemma ExtraFieldByRule(lib: Library, t: Tab, f: ExtraField, st: Settings<ExtraField>, r: Settings<ExtraField>)
    ensures ExtraRule(lib, t, f, st, r) <==> FieldRule(lib, EXTRA, t, f, st, r)
  {
  }

  lemma ExtraByRule(lib: Library, t: Tab, st: Settings<ExtraField>, r: Settings<ExtraField>)
    requires Typed(EXTRA, r)
    ensures (forall f :: ExtraRule(lib, t, f, st, r)) <==> r == ReadSettings(lib, EXTRA, Some(t), st)
  {
    ExtraWellFormed();
    forall f ensures ExtraRule(lib, t, f, st, r) <==> FieldRule(lib, EXTRA, t, f, st, r) {
      ExtraFieldByRule(lib, t, f, st, r);
    }
    FieldsByReading(lib, EXTRA, t, st, r);
  }

  lemma CheatsByRule(lib: Library, t: Tab, st: Settings<CheatsField>, r: Settings<CheatsField>)
    requires Typed(CHEATS, r)
    ensures (forall f :: CheatsRule(lib, t, f, st, r)) <==> r == ReadSettings(lib, CHEATS, Some(t), st)
  {
    CheatsWellFormed();
    forall f ensures CheatsRule(lib, t, f, st, r) <==> FieldRule(lib, CHEATS, t, f, st, r) {
    }
    FieldsByReading(lib, CHEATS, t, st, r);
  }

  lemma LootByRule(lib: Library, t: Tab, st: Settings<LootField>, r: Settings<LootField>)
    requires Typed(LOOT, r)
    ensures (forall f :: LootRule(lib, t, f, st, r)) <==> r == ReadSettings(lib, LOOT, Some(t), st)
  {
    LootWellFormed();
    forall f ensures LootRule(lib, t, f, st, r) <==> FieldRule(lib, LOOT, t, f, st, r) {
    }
    FieldsByReading(lib, LOOT, t, st, r);
  }

  lemma OverlaysByRule(lib: Library, t: Tab, st: Settings<OverlaysField>, r: Settings<OverlaysField>)
    requires Typed(OVERLAYS, r)
    ensures (forall f :: OverlaysRule(lib, t, f, st, r)) <==> r == ReadSettings(lib, OVERLAYS, Some(t), st)
  {
    OverlaysWellFormed();
    forall f ensures OverlaysRule(lib, t, f, st, r) <==> FieldRule(lib, OVERLAYS, t, f, st, r) {
    }
    FieldsByReading(lib, OVERLAYS, t, st, r);
  }

  lemma GuiByRule(lib: Library, t: Tab, st: Settings<GuiField>, r: Settings<GuiField>)
    requires Typed(GUI, r)
    ensures (forall f :: GuiRule(lib, t, f, st, r)) <==> r == ReadSettings(lib, GUI, Some(t), st)
  {
    GuiWellFormed();
    forall f ensures GuiRule(lib, t, f, st, r) <==> FieldRule(lib, GUI, t, f, st, r) {
    }
    FieldsByReading(lib, GUI, t, st, r);
  }

  lemma DebugByRule(lib: Library, t: Tab, st: Settings<DebugField>, r: Settings<DebugField>)
    requires Typed(DEBUG, r)
    ensures (forall f :: DebugRule(lib, t, f, st, r)) <==> r == ReadSettings(lib, DEBUG, Some(t), st)
  {
    DebugWellFormed();
    forall f ensures DebugRule(lib, t, f, st, r) <==> FieldRule(lib, DEBUG, t, f, st, r) {
    }
    FieldsByReading(lib, DEBUG, t, st, r);
  }

  lemma ResolutionByRule(lib: Library, t: Tab, st: Settings<ResolutionField>, r: Settings<ResolutionField>)
    requires Typed(RESOLUTION, r)
    ensures (forall f :: ResolutionRule(lib, t, f, st, r)) <==> r == ReadSettings(lib, RESOLUTION, Some(t), st)
  {
    ResolutionWellFormed();
    forall f ensures ResolutionRule(lib, t, f, st, r) <==> FieldRule(lib, RESOLUTION, t, f, st, r) {
    }
    FieldsByReading(lib, RESOLUTION, t, st, r);
  }

  /** The flags before the season map is applied; a file has no other switch in this section. */
  lemma EventsByRule(lib: Library, t: Tab, st: Settings<EventsField>, r: Settings<EventsField>)
    requires Typed(EVENTS, r)
    ensures (forall f :: EventsRule(lib, t, f, st, r)) <==> r == ReadSettings(lib, EVENTS, Some(t), st)
  {
    EventsWellFormed();
    forall f ensures EventsRule(lib, t, f, st, r) <==> FieldRule(lib, EVENTS, t, f, st, r) {
    }
    FieldsByReading(lib, EVENTS, t, st, r);
  }

  lemma EndsByRule(lib: Library, t: Tab, st: Settings<RiftsField>, r: Settings<RiftsField>)
    requires Typed(RIFTS, r)
    ensures EndsRule(lib, t, st, r) <==> r.num == ApplyRifts(lib, Some(t), st).num
  {
    var start := ReadInt(lib, t, RiftsRow(RangeStart).aliases, Num(st, RangeStart), 0, 999);
    var end := ReadInt(lib, t, RiftsRow(RangeEnd).aliases, Num(st, RangeEnd), 0, 999);
    forall i ensures NumberRule(lib, t, ["RiftRangeStart", "RangeStart", "RangeMin"], 0, 999, Num(st, RangeStart), i)
      <==> i == start
    {
      IntegerByReading(lib, t, RiftsRow(RangeStart).aliases, 0, 999, Num(st, RangeStart), i);
    }
    forall i ensures NumberRule(lib, t, ["RiftRangeEnd", "RangeEnd", "RangeMax"], 0, 999, Num(st, RangeEnd), i)
      <==> i == end
    {
      IntegerByReading(lib, t, RiftsRow(RangeEnd).aliases, 0, 999, Num(st, RangeEnd), i);
    }
    assert NumberRule(lib, t, ["RiftRangeStart", "RangeStart", "RangeMin"], 0, 999, Num(st, RangeStart), start);
    assert NumberRule(lib, t, ["RiftRangeEnd", "RangeEnd", "RangeMax"], 0, 999, Num(st, RangeEnd), end);
    ApplyEnds(lib, t, st);
    assert r.num.Keys == {RangeStart, RangeEnd};
    EndsDecide(r.num, SortEnds(start, end));
  }

  lemma RiftsByRule(lib: Library, t: Tab, st: Settings<RiftsField>, r: Settings<RiftsField>)
    requires Typed(RIFTS, r)
    ensures (forall f :: RiftsRule(lib, t, f, st, r)) && EndsRule(lib, t, st, r) <==>
      r == ApplyRifts(lib, Some(t), st)
  {
    var a := ApplyRifts(lib, Some(t), st);
    EndsByRule(lib, t, st, r);
    ApplyEnds(lib, t, st);
    forall f ensures RiftsRule(lib, t, f, st, r) <==> (f in r.on <==> f in a.on) {
      SwitchByReading(lib, t, RiftsRow(f).aliases, f, st, r);
    }
    if forall f :: RiftsRule(lib, t, f, st, r) {
      assert r.on == a.on;
    }
  }

  // ----- the fields that are read in their own ways

  lemma SpeedByRule(lib: Library, t: Tab, keys: seq<string>, before: real, after: real)
    ensures SpeedRule(lib, t, keys, before, after) <==> after == ReadDouble(lib, t, keys, before, 0.1, 10.0)
  {
    NumberIsFirst(lib, t, keys);
  }

  lemma TextByRule(lib: Library, t: Tab, keys: seq<string>, before: string, after: string)
    ensures TextRule(lib, t, keys, before, after) <==> after == ReadString(lib, t, keys, before)
  {
    ReadingIsFirst(t, keys, lib.asString);
  }

  lemma ModeByRule(lib: Library, t: Tab, before: MapMode, after: MapMode)
    ensures ModeRule(lib, t, before, after) <==> after == ReadMapMode(lib, t, EventsRow(SeasonMapMode).aliases, before)
  {
    var keys := EventsRow(SeasonMapMode).aliases;
    ReadingIsFirst(t, keys, lib.asString);
    ReadingIsFirst(t, keys, lib.asBool);
    if ReadValue(t, keys, lib.asString).Some? {
      ModeWords(ReadValue(t, keys, lib.asString).value, before, after);
    }
  }

  lemma ModeWords(s: string, before: MapMode, after: MapMode)
    ensures ModeNamed(NormalizeKey(s), before, after) <==> after == ParseMapMode(s, before)
  {
  }

  lemma RankByRule(lib: Library, t: Tab, before: (string, int), after: (string, int))
    ensures RankRule(lib, t, before.0, before.1, after.0, after.1) <==> after == ApplyRank(lib, Some(t), before)
  {
    var s := ReadString(lib, t, LootRow(AncientRank).aliases, before.0);
    forall x ensures TextRule(lib, t, ["AncientRank"], before.0, x) <==> x == s {
      TextByRule(lib, t, LootRow(AncientRank).aliases, before.0, x);
    }
    RankWords(s, before.1, after.1);
  }

  lemma RankWords(s: string, before: int, after: int)
    ensures RankNamed(NormalizeKey(s), before, after) <==> after == AncientRankToValue(s, before)
  {
  }

  // ----- the output settings

  lemma DigitsSplit(front: string, c: char)
    ensures AllDigits(front + [c]) <==> AllDigits(front) && IsDigit(c)
  {
    assert c in front + [c];
    assert forall x :: x in front ==> x in front + [c];
  }

  /** A text read digit by digit from its end, as the program does, gives what it gives from its front. */
  lemma {:induction false} DigitsByReading(s: string)
    ensures ParseDigits(s) == if s != "" && AllDigits(s) then Some(ReadDigits(s, 0)) else None
    decreases |s|
  {
    if s != "" {
      var front, c := s[..|s| - 1], s[|s| - 1];
      assert s == front + [c];
      DigitsSplit(front, c);
      if AllDigits(s) {
        ReadLast(front, c, 0);
      }
      if front != "" {
        DigitsByReading(front);
      }
    }
  }

  lemma HeightWords(s: string, before: int, height: int)
    ensures HeightNamed(NormalizeKey(s), before, height) <==> height == ParseOutputTarget(s, before)
  {
    DigitsByReading(NormalizeKey(s));
  }

  lemma TargetByRule(lib: Library, devMem: bool, t: Tab, before: int, after: int)
    ensures TargetRule(lib, devMem, t, before, after) <==> after == ReadTarget(lib, devMem, t, before)
  {
    var keys := ResolutionRow(OutputTarget).aliases;
    NumberIsFirst(lib, t, keys);
    ReadingIsFirst(t, keys, lib.asString);
    if ReadNumber(lib, t, keys).Some? {
      var v := ReadNumber(lib, t, keys).value;
      BoundedWholeIsTruncation(v, 720, 2160, Truncate(ClampReal(v, 720.0, 2160.0)));
      BoundedWholeIsTruncation(v, 720, MaxTarget(devMem), after);
    } else if ReadValue(t, keys, lib.asString).Some? {
      var s := ReadValue(t, keys, lib.asString).value;
      forall height ensures HeightNamed(NormalizeKey(s), before, height) <==> height == ParseOutputTarget(s, before) {
        HeightWords(s, before, height);
      }
      assert First(t, keys, lib.asString, s) && HeightNamed(NormalizeKey(s), before, ParseOutputTarget(s, before));
    }
  }

  lemma HandheldByStep(v: real, scale: real)
    ensures HandheldStep(v, scale) <==> scale == SetHandheldScale(ClampReal(v, 0.0, 100.0))
  {
  }

  lemma HandheldByRule(lib: Library, t: Tab, before: real, after: real)
    ensures HandheldRule(lib, t, before, after) <==> after == ReadHandheldScale(lib, t, before)
  {
    var keys := ResolutionRow(OutputHandheldScale).aliases;
    NumberIsFirst(lib, t, keys);
    if ReadNumber(lib, t, keys).Some? {
      HandheldByStep(ReadNumber(lib, t, keys).value, after);
    }
  }

  lemma ScalesByRule(lib: Library, t: Tab, lo: real, hi: real, lo': real, hi': real)
    ensures ScalesRule(lib, t, lo, hi, lo', hi') <==> (lo', hi') == ReadScales(lib, t, (lo, hi))
  {
    var lower, upper := ResolutionRow(MinResScale).aliases, ResolutionRow(MaxResScale).aliases;
    NumberIsFirst(lib, t, lower);
    NumberIsFirst(lib, t, upper);
    if ReadNumber(lib, t, upper).Some? {
      var w := ReadNumber(lib, t, upper).value;
      assert (exists v :: FirstNumber(lib, t, upper, v) && Bounded(v, 10.0, 100.0, hi')) <==>
        hi' == ClampReal(w, 10.0, 100.0);
    }
  }

  lemma ClampByRule(lib: Library, t: Tab, before: int, after: int)
    ensures ClampRule(lib, t, before, after) <==> after == ReadClampTexture(lib, t, before)
  {
    var keys := ResolutionRow(ClampTextureResolution).aliases;
    NumberIsFirst(lib, t, keys);
  }

  // ----- the sections of a file

  lemma SeasonsFollowed(lib: Library, root: Tab, c: Config, r: Config)
    requires Typed(SEASONS, r.seasons)
    ensures SeasonsFollow(lib, root, c, r) <==>
      r.seasons == ReadSettings(lib, SEASONS, FindTable(root, "seasons"), c.seasons)
  {
    if HasTable(root, "seasons") {
      SeasonsByRule(lib, root["seasons"].entries, c.seasons, r.seasons);
    }
  }

  lemma RiftsFollowed(lib: Library, root: Tab, c: Config, r: Config)
    requires Typed(RIFTS, r.rifts)
    ensures RiftsFollow(lib, root, c, r) <==> r.rifts == ApplyRifts(lib, FindTable(root, "challenge_rifts"), c.rifts)
  {
    if HasTable(root, "challenge_rifts") {
      RiftsByRule(lib, root["challenge_rifts"].entries, c.rifts, r.rifts);
    }
  }

  lemma CheatsFollowed(lib: Library, root: Tab, c: Config, r: Config)
    requires Typed(CHEATS, r.cheats)
    ensures var t := FindTable(root, "rare_cheats");
      CheatsFollow(lib, root, c, r) <==>
        && r.cheats == ReadSettings(lib, CHEATS, t, c.cheats)
        && r.moveSpeed == ApplySpeed(lib, t, MoveSpeed, c.moveSpeed)
        && r.attackSpeed == ApplySpeed(lib, t, AttackSpeed, c.attackSpeed)
  {
    if HasTable(root, "rare_cheats") {
      var t := root["rare_cheats"].entries;
      CheatsByRule(lib, t, c.cheats, r.cheats);
      SpeedByRule(lib, t, CheatsRow(MoveSpeed).aliases, c.moveSpeed, r.moveSpeed);
      SpeedByRule(lib, t, CheatsRow(AttackSpeed).aliases, c.attackSpeed, r.attackSpeed);
    }
  }

  lemma LootFollowed(lib: Library, root: Tab, c: Config, r: Config)
    requires Typed(LOOT, r.loot)
    ensures var t := FindTable(root, "loot_modifiers");
      LootFollows(lib, root, c, r) <==>
        && r.loot == ReadSettings(lib, LOOT, t, c.loot)
        && (r.rank, r.rankValue) == ApplyRank(lib, t, (c.rank, c.rankValue))
  {
    if HasTable(root, "loot_modifiers") {
      var t := root["loot_modifiers"].entries;
      LootByRule(lib, t, c.loot, r.loot);
      RankByRule(lib, t, (c.rank, c.rankValue), (r.rank, r.rankValue));
    }
  }

  lemma OverlaysFollowed(lib: Library, root: Tab, c: Config, r: Config)
    requires Typed(OVERLAYS, r.overlays)
    ensures OverlaysFollow(lib, root, c, r) <==>
      r.overlays == ReadSettings(lib, OVERLAYS, FindTable(root, "overlays"), c.overlays)
  {
    if HasTable(root, "overlays") {
      OverlaysByRule(lib, root["overlays"].entries, c.overlays, r.overlays);
    }
  }

  lemma GuiFollowed(lib: Library, root: Tab, c: Config, r: Config)
    requires Typed(GUI, r.gui)
    ensures var t := FindTable(root, "gui");
      GuiFollows(lib, root, c, r) <==>
        r.gui == ReadSettings(lib, GUI, t, c.gui) && r.language == ApplyLanguage(lib, t, c.language)
  {
    if HasTable(root, "gui") {
      var t := root["gui"].entries;
      GuiByRule(lib, t, c.gui, r.gui);
      TextByRule(lib, t, GuiRow(Language).aliases, c.language, r.language);
    }
  }

  lemma DebugFollowed(lib: Library, root: Tab, c: Config, r: Config)
    requires Typed(DEBUG, r.debug)
    ensures DebugFollows(lib, root, c, r) <==> r.debug == ReadSettings(lib, DEBUG, FindTable(root, "debug"), c.debug)
  {
    if HasTable(root, "debug") {
      DebugByRule(lib, root["debug"].entries, c.debug, r.debug);
    }
  }

  lemma OutputFollowed(lib: Library, devMem: bool, t: Tab, o: Output, p: Output)
    ensures (&& TargetRule(lib, devMem, t, o.target, p.target)
             && HandheldRule(lib, t, o.handheldScale, p.handheldScale)
             && ScalesRule(lib, t, o.minScale, o.maxScale, p.minScale, p.maxScale)
             && ClampRule(lib, t, o.clampTexture, p.clampTexture)) <==>
      p == ApplyOutput(lib, devMem, Some(t), o)
  {
    TargetByRule(lib, devMem, t, o.target, p.target);
    HandheldByRule(lib, t, o.handheldScale, p.handheldScale);
    ScalesByRule(lib, t, o.minScale, o.maxScale, p.minScale, p.maxScale);
    ClampByRule(lib, t, o.clampTexture, p.clampTexture);
  }

  lemma ResolutionFollowed(lib: Library, devMem: bool, root: Tab, c: Config, r: Config)
    requires Typed(RESOLUTION, r.resolution)
    ensures var t := FindTable(root, "resolution_hack");
      ResolutionFollows(lib, devMem, root, c, r) <==>
        && r.resolution == ReadSettings(lib, RESOLUTION, t, c.resolution)
        && r.output == ApplyOutput(lib, devMem, t, c.output)
  {
    if HasTable(root, "resolution_hack") {
      var t := root["resolution_hack"].entries;
      ResolutionByRule(lib, t, c.resolution, r.resolution);
      OutputFollowed(lib, devMem, t, c.output, r.output);
    }
  }

  lemma ExtraFollowed(lib: Library, root: Tab, c: Config, r: Config)
    requires Typed(EXTRA, r.extra)
    ensures ExtraFollows(lib, root, c, r) <==>
      r.extra == ReadSettings(lib, EXTRA, FindExtra(FindTable(root, "resolution_hack")), c.extra)
  {
    if HasTable(root, "resolution_hack") && HasTable(root["resolution_hack"].entries, "extra") {
      ExtraByRule(lib, root["resolution_hack"].entries["extra"].entries, c.extra, r.extra);
    }
  }

  lemma ModeFollowed(lib: Library, root: Tab, before: MapMode, after: MapMode)
    ensures (if HasTable(root, "events") then ModeRule(lib, root["events"].entries, before, after) else after == before)
      <==> after == ApplyMapMode(lib, FindTable(root, "events"), before)
  {
    if HasTable(root, "events") {
      ModeByRule(lib, root["events"].entries, before, after);
    }
  }

  lemma GivenByReading(lib: Library, root: Tab, st: Settings<EventsField>, given: Settings<EventsField>)
    requires Typed(EVENTS, given)
    ensures EventsGiven(lib, root, st, given) <==>
      given == ReadSettings(lib, EVENTS, FindTable(root, "events"), st)
  {
    if HasTable(root, "events") {
      EventsByRule(lib, root["events"].entries, st, given);
    }
  }

  /** The flags that a file gives are those that are read. */
  lemma GivenFlag(lib: Library, root: Tab, st: Settings<EventsField>, given: Settings<EventsField>, f: EventsField)
    requires EventsGiven(lib, root, st, given) && f != SeasonMapMode
    ensures f in given.on <==> f in ReadSettings(lib, EVENTS, FindTable(root, "events"), st).on
  {
    if HasTable(root, "events") {
      var t := root["events"].entries;
      assert EventsRule(lib, t, f, st, given);
      assert FieldRule(lib, EVENTS, t, f, st, given);
      SwitchByReading(lib, t, EventsRow(f).aliases, f, st, given);
    }
  }

  /** The flags after the season map, given those before it. */
  lemma MappedFlag(lib: Library, section: Option<Tab>, mode: MapMode, seasons: Settings<SeasonsField>,
      st: Settings<EventsField>, f: EventsField)
    requires f != SeasonMapMode
    ensures f in ApplyEvents(lib, section, mode, seasons, st).on <==>
      OnAfterMap(mode, SeasonsField.Active in seasons.on, Num(seasons, CurrentSeason), f,
        f in ReadSettings(lib, EVENTS, section, st).on)
  {
    FlagAfterMap(mode, SeasonsField.Active in seasons.on, Num(seasons, CurrentSeason),
      ReadSettings(lib, EVENTS, section, st).on, f);
  }

  lemma FlagsFollowed(lib: Library, root: Tab, c: Config, r: Config)
    requires Typed(EVENTS, c.events) && Typed(EVENTS, r.events)
    ensures FlagsRule(lib, root, c, r) <==>
      r.events == ApplyEvents(lib, FindTable(root, "events"), r.mapMode, r.seasons, c.events)
  {
    var section := FindTable(root, "events");
    var read := ReadSettings(lib, EVENTS, section, c.events);
    var a := ApplyEvents(lib, section, r.mapMode, r.seasons, c.events);
    EventsTyped(lib, section, r.mapMode, r.seasons, c.events);
    forall f | f != SeasonMapMode
      ensures f in a.on <==>
        OnAfterMap(r.mapMode, SeasonsField.Active in r.seasons.on, Num(r.seasons, CurrentSeason), f, f in read.on)
    {
      MappedFlag(lib, section, r.mapMode, r.seasons, c.events, f);
    }
    if FlagsRule(lib, root, c, r) {
      var given :| EventsGiven(lib, root, c.events, given) &&
        forall f: EventsField :: f != SeasonMapMode ==> (f in r.events.on <==>
          OnAfterMap(r.mapMode, SeasonsField.Active in r.seasons.on, Num(r.seasons, CurrentSeason), f, f in given.on));
      forall f ensures f in r.events.on <==> f in a.on {
        if f != SeasonMapMode {
          GivenFlag(lib, root, c.events, given, f);
        }
      }
      assert r.events.on == a.on;
      assert r.events.num == a.num;
    }
    EventsWellFormed();
    ReadSettingsTyped(lib, EVENTS, section, c.events);
    GivenByReading(lib, root, c.events, read);
  }

  // ----- the file as a whole

  /**
   A configuration is what `ApplyTable` makes of another one exactly if it follows the rules of the file: no
   field that the file does not give changes, and every one that it does has the value the rules say.
   */
  lemma AppliedExactly(lib: Library, devMem: bool, root: Tab, c: Config, r: Config)
    requires WellTyped(c) && WellTyped(r)
    ensures Follows(lib, devMem, root, c, r) <==> r == Applied(lib, devMem, c, root)
  {
    SeasonsFollowed(lib, root, c, r);
    RiftsFollowed(lib, root, c, r);
    ModeFollowed(lib, root, c.mapMode, r.mapMode);
    FlagsFollowed(lib, root, c, r);
    CheatsFollowed(lib, root, c, r);
    LootFollowed(lib, root, c, r);
    OverlaysFollowed(lib, root, c, r);
    GuiFollowed(lib, root, c, r);
    DebugFollowed(lib, root, c, r);
    ResolutionFollowed(lib, devMem, root, c, r);
    ExtraFollowed(lib, root, c, r);
  }

  /** In particular what `ApplyTable` makes of any configuration follows the rules. */
  lemma AppliedFollows(lib: Library, devMem: bool, root: Tab, c: Config)
    requires WellTyped(c)
    ensures Follows(lib, devMem, root, c, Applied(lib, devMem, c, root))
  {
    AppliedWellTyped(lib, devMem, c, root);
    AppliedExactly(lib, devMem, root, c, Applied(lib, devMem, c, root));
  }
}
