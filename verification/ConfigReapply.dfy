/** Applying one TOML tree twice. */
module ConfigReapply {
  import opened Options
  import opened Toml
  import opened Spelling
  import opened Settings
  import opened ConfigLayouts
  import opened PatchConfigs

  // ----- applying one tree twice

  /** The section gives a value for exactly one end of the rift range. */
  predicate GivesOneBound(lib: Library, t: Tab) {
    ReadNumber(lib, t, RiftsRow(RangeStart).aliases).Some? != ReadNumber(lib, t, RiftsRow(RangeEnd).aliases).Some?
  }

  /** The ends of the range as read cross, so that they are swapped. */
  predicate SwapFires(lib: Library, t: Tab, st: Settings<RiftsField>) {
    ReadInt(lib, t, RiftsRow(RangeStart).aliases, Num(st, RangeStart), 0, 999)
      > ReadInt(lib, t, RiftsRow(RangeEnd).aliases, Num(st, RangeEnd), 0, 999)
  }

  /** The one way to be unstable: a single bound is given and it crosses the other one. */
  predicate Unstable(lib: Library, section: Option<Tab>, st: Settings<RiftsField>) {
    match section
    case None => false
    case Some(t) => GivesOneBound(lib, t) && SwapFires(lib, t, st)
  }

  /** The two ends as read from a section, and nothing else but the switches. */
  lemma ReadEnds(lib: Library, t: Tab, st: Settings<RiftsField>)
    ensures ReadSettings(lib, RIFTS, Some(t), st).num == map[
      RangeStart := ReadInt(lib, t, RiftsRow(RangeStart).aliases, Num(st, RangeStart), 0, 999),
      RangeEnd := ReadInt(lib, t, RiftsRow(RangeEnd).aliases, Num(st, RangeEnd), 0, 999)]
  {
  }

  function SortEnds(start: int, end: int): map<RiftsField, int> {
    if start > end then map[RangeStart := end, RangeEnd := start] else map[RangeStart := start, RangeEnd := end]
  }

  /** One application of a rift section in terms of its two ends. */
  lemma ApplyEnds(lib: Library, t: Tab, st: Settings<RiftsField>)
    ensures ApplyRifts(lib, Some(t), st).on == ReadSettings(lib, RIFTS, Some(t), st).on
    ensures ApplyRifts(lib, Some(t), st).num == SortEnds(
      ReadInt(lib, t, RiftsRow(RangeStart).aliases, Num(st, RangeStart), 0, 999),
      ReadInt(lib, t, RiftsRow(RangeEnd).aliases, Num(st, RangeEnd), 0, 999))
  {
    ReadEnds(lib, t, st);
  }

  lemma RiftsTwice(lib: Library, section: Option<Tab>, st: Settings<RiftsField>)
    ensures ApplyRifts(lib, section, ApplyRifts(lib, section, st)) == ApplyRifts(lib, section, st) <==>
      !Unstable(lib, section, st)
  {
    if section.Some? {
      var t := section.value;
      var once := ApplyRifts(lib, section, st);
      var twice := ApplyRifts(lib, section, once);
      ApplyEnds(lib, t, st);
      ApplyEnds(lib, t, once);
      SwitchesReadTwice(lib, RIFTS, t, st, once);
      EndsDecide(once.num, twice.num);
    }
  }

  lemma EndsDecide(a: map<RiftsField, int>, b: map<RiftsField, int>)
    requires a.Keys == b.Keys == {RangeStart, RangeEnd}
    ensures a == b <==> a[RangeStart] == b[RangeStart] && a[RangeEnd] == b[RangeEnd]
  {
  }

  lemma MapModeTwice(lib: Library, section: Option<Tab>, mode: MapMode)
    ensures ApplyMapMode(lib, section, ApplyMapMode(lib, section, mode)) == ApplyMapMode(lib, section, mode)
  {
  }

  lemma EventsTwice(lib: Library, section: Option<Tab>, mode: MapMode, seasons: Settings<SeasonsField>,
      st: Settings<EventsField>)
    ensures ApplyEvents(lib, section, mode, seasons, ApplyEvents(lib, section, mode, seasons, st))
         == ApplyEvents(lib, section, mode, seasons, st)
  {
  }

  lemma RankTwice(lib: Library, section: Option<Tab>, rank: (string, int))
    ensures ApplyRank(lib, section, ApplyRank(lib, section, rank)) == ApplyRank(lib, section, rank)
  {
    if section.Some? {
      var keys := LootRow(AncientRank).aliases;
      var given := ReadValue(section.value, keys, lib.asString);
      var text := given.GetOr(rank.0);
      var once := ResolveRank(text, rank.1);
      RankRange(text, rank.1);
      if 0 <= once.1 <= 2 {
        ParseCanonicalRank(once.1, text, once.1);
      }
    }
  }

  lemma OutputTwice(lib: Library, devMem: bool, section: Option<Tab>, o: Output)
    ensures ApplyOutput(lib, devMem, section, ApplyOutput(lib, devMem, section, o))
         == ApplyOutput(lib, devMem, section, o)
  {
    if section.Some? {
      TargetTwice(lib, devMem, section.value, o.target);
      ScalesTwice(lib, section.value, (o.minScale, o.maxScale));
    }
  }

  lemma TargetTwice(lib: Library, devMem: bool, t: Tab, current: int)
    ensures ReadTarget(lib, devMem, t, ReadTarget(lib, devMem, t, current)) == ReadTarget(lib, devMem, t, current)
  {
  }

  lemma ScalesTwice(lib: Library, t: Tab, range: (real, real))
    ensures ReadScales(lib, t, ReadScales(lib, t, range)) == ReadScales(lib, t, range)
  {
  }

  lemma SectionsTwice(lib: Library, devMem: bool, c: Config, t: Sections)
    ensures AppliedSections(lib, devMem, AppliedSections(lib, devMem, c, t), t) == AppliedSections(lib, devMem, c, t)
      <==> !Unstable(lib, t.rifts, c.rifts)
  {
    var a := AppliedSections(lib, devMem, c, t);
    ReadTwice(lib, SEASONS, t.seasons, c.seasons);
    RiftsTwice(lib, t.rifts, c.rifts);
    MapModeTwice(lib, t.events, c.mapMode);
    EventsTwice(lib, t.events, a.mapMode, a.seasons, c.events);
    ReadTwice(lib, EXTRA, FindExtra(t.resolution), c.extra);
    ReadTwice(lib, CHEATS, t.cheats, c.cheats);
    ReadTwice(lib, LOOT, t.loot, c.loot);
    RankTwice(lib, t.loot, (c.rank, c.rankValue));
    ReadTwice(lib, OVERLAYS, t.overlays, c.overlays);
    ReadTwice(lib, GUI, t.gui, c.gui);
    ReadTwice(lib, DEBUG, t.debug, c.debug);
    ReadTwice(lib, RESOLUTION, t.resolution, c.resolution);
    OutputTwice(lib, devMem, t.resolution, c.output);
  }

  /**
   Applying a tree twice is applying it once, from any configuration, exactly unless the tree gives
   a single end of the rift range and that end crosses the one the configuration has.
   */
  lemma ApplyTwice(lib: Library, devMem: bool, c: Config, root: Tab)
    ensures Applied(lib, devMem, Applied(lib, devMem, c, root), root) == Applied(lib, devMem, c, root)
      <==> !Unstable(lib, FindTable(root, "challenge_rifts"), c.rifts)
  {
    SectionsTwice(lib, devMem, c, SectionsOf(root));
  }

  /** A section that gives only the start of the range, as 30, over the default range 0..20. */
  lemma OneBoundCrosses(lib: Library, t: Tab)
    requires Exact(lib)
    requires t == map["RiftRangeStart" := Int(30)]
    ensures Unstable(lib, Some(t), RIFTS_DEFAULT)
    ensures Num(ApplyRifts(lib, Some(t), RIFTS_DEFAULT), RangeStart) == 20
    ensures Num(ApplyRifts(lib, Some(t), RIFTS_DEFAULT), RangeEnd) == 30
  {
    var conv := n => lib.AsNumber(n);
    assert lib.asDouble(Int(30)) in {None, Some(30 as real)} && lib.asInt(Int(30)) == Some(30);
    assert conv(Int(30)) == Some(30.0);
    FirstAlias(t, RiftsRow(RangeStart).aliases, conv, 0);
    EndAliasesAbsent(t);
    ReadUnwritten(t, RiftsRow(RangeEnd).aliases, conv);
    ReadEnds(lib, t, RIFTS_DEFAULT);
  }

  lemma EndAliasesAbsent(t: Tab)
    requires t.Keys == {"RiftRangeStart"}
    ensures forall k :: k in RiftsRow(RangeEnd).aliases ==> k !in t
  {
  }

  /** The defaults with that file: 0..20 becomes 20..30, and on a second application 30..30. */
  lemma ApplyTwiceCounterexample(lib: Library, devMem: bool, root: Tab)
    requires Exact(lib)
    requires root == map["challenge_rifts" := Table(map["RiftRangeStart" := Int(30)])]
    ensures Applied(lib, devMem, Applied(lib, devMem, Defaults(), root), root) != Applied(lib, devMem, Defaults(), root)
  {
    OneBoundCrosses(lib, map["RiftRangeStart" := Int(30)]);
    ApplyTwice(lib, devMem, Defaults(), root);
  }
}
