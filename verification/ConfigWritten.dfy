/** The tree a configuration is written as, name by name. */
module ConfigWritten {
  import opened Toml
  import opened Spelling
  import opened Settings
  import opened ConfigLayouts
  import opened LayoutAliases
  import opened PatchConfigs
  import opened ConfigRoundTrip

  // ----- one section

  /** The name a field is written under: the first of its names. */
  function FirstName<F>(l: Layout<F>, f: F): string {
    if l.row(f).aliases == [] then "" else l.row(f).aliases[0]
  }

  /** The table holds every switch and every number of the section under its first name. */
  ghost predicate Shows<F(!new)>(l: Layout<F>, st: Settings<F>, t: Tab) {
    forall f :: f in l.all && !l.kind(f).Special? ==>
      FirstName(l, f) in t && t[FirstName(l, f)] == if l.kind(f).Switch? then Bool(f in st.on) else Int(Num(st, f))
  }

  /** Besides these, it holds what stands under the given names. */
  ghost predicate ShowsOnly<F(!new)>(l: Layout<F>, t: Tab, more: set<string>) {
    forall k :: k in t && k !in more ==> exists f :: f in l.all && !l.kind(f).Special? && k == FirstName(l, f)
  }

  lemma WrittenAt<F(!new)>(l: Layout<F>, st: Settings<F>, special: map<F, Node>, f: F)
    requires WellFormed(l) && IsWritten(l, special, f)
    ensures l.row(f).Key() in Written(l, st, special)
    ensures Written(l, st, special)[l.row(f).Key()] == NodeOf(l, st, special, f)
  {
  }

  /** A section: its switches and numbers, and `more`. */
  ghost predicate Holds<F(!new)>(l: Layout<F>, st: Settings<F>, n: Node, more: Tab) {
    && n.Table?
    && Shows(l, st, n.entries)
    && (forall k :: k in more ==> k in n.entries && n.entries[k] == more[k])
    && ShowsOnly(l, n.entries, more.Keys)
  }

  /** The special fields that are written, and `more`, are the same under their names. */
  ghost predicate SameSpecials<F(!new)>(l: Layout<F>, special: map<F, Node>, more: Tab) {
    && (forall f :: f in special ==> f in l.all && l.kind(f).Special?)
    && (forall f :: f in special ==> l.row(f).Key() in more && more[l.row(f).Key()] == special[f])
    && (forall k :: k in more ==> exists f :: f in special && l.row(f).Key() == k)
  }

  ghost predicate FirstIsKey<F(!new)>(l: Layout<F>) {
    forall f :: f in l.all && !l.kind(f).Special? ==> l.row(f).pos == 0
  }

  lemma WrittenShows<F(!new)>(l: Layout<F>, st: Settings<F>, special: map<F, Node>)
    requires WellFormed(l) && FirstIsKey(l)
    ensures Shows(l, st, Written(l, st, special))
  {
    forall f | f in l.all && !l.kind(f).Special? ensures l.row(f).Key() == FirstName(l, f) {
      assert KeyReached(l, f);
    }
    forall f | f in l.all && !l.kind(f).Special?
      ensures FirstName(l, f) in Written(l, st, special)
      ensures Written(l, st, special)[FirstName(l, f)] == NodeOf(l, st, special, f)
    {
      WrittenAt(l, st, special, f);
    }
  }

  lemma WrittenHolds<F(!new)>(l: Layout<F>, st: Settings<F>, special: map<F, Node>, more: Tab)
    requires WellFormed(l) && FirstIsKey(l) && SameSpecials(l, special, more)
    ensures Holds(l, st, Table(Written(l, st, special)), more)
  {
    var t := Written(l, st, special);
    WrittenShows(l, st, special);
    forall k | k in more ensures k in t && t[k] == more[k] {
      var f :| f in special && l.row(f).Key() == k;
      WrittenAt(l, st, special, f);
    }
    forall k | k in t && k !in more ensures exists f :: f in l.all && !l.kind(f).Special? && k == FirstName(l, f) {
      var f :| f in l.all && IsWritten(l, special, f) && k == l.row(f).Key();
      assert KeyReached(l, f);
    }
  }

  // ----- the tree

  /** `r` is a whole number of tenths, and none is nearer to `v`; of two equally near ones it is the larger in size. */
  predicate NearestTenth(v: real, r: real) {
    && (10.0 * r).Floor as real == 10.0 * r
    && if v >= 0.0 then r - 0.05 <= v < r + 0.05 else r - 0.05 < v <= r + 0.05
  }

  function ModeName(mode: MapMode): string {
    match mode
    case MapOnly => "MapOnly"
    case OverlayConfig => "OverlayConfig"
    case Disabled => "Disabled"
  }

  function RankName(rank: string, value: int): string {
    if value == 0 then "Normal" else if value == 1 then "Ancient" else if value == 2 then "Primal" else rank
  }

  ghost predicate CheatsShown(c: Config, n: Node) {
    exists move, attack :: NearestTenth(c.moveSpeed, move) && NearestTenth(c.attackSpeed, attack) &&
      Holds(CHEATS, c.cheats, n,
        map["MovementSpeedMultiplier" := Float(move), "AttackSpeedMultiplier" := Float(attack)])
  }

  function OutputShown(extra: Node, o: Output): Tab {
    map[
      "extra" := extra,
      "OutputTarget" := Int(o.target),
      "OutputHandheldScale" := Float(o.handheldScale),
      "MinResScale" := Float(o.minScale),
      "MaxResScale" := Float(o.maxScale),
      "ClampTextureResolution" := Int(o.clampTexture)]
  }

  ghost predicate ResolutionShown(c: Config, n: Node) {
    exists extra ::
      Holds(EXTRA, c.extra, extra, map[]) && Holds(RESOLUTION, c.resolution, n, OutputShown(extra, c.output))
  }

  lemma SeasonsWritten(c: Config)
    ensures WellFormed(SEASONS) && Holds(SEASONS, c.seasons, Table(Written(SEASONS, c.seasons, map[])), map[])
  {
    SeasonsWellFormed();
    WrittenHolds(SEASONS, c.seasons, map[], map[]);
  }

  lemma RiftsWritten(c: Config)
    ensures WellFormed(RIFTS) && Holds(RIFTS, c.rifts, Table(Written(RIFTS, c.rifts, map[])), map[])
  {
    RiftsWellFormed();
    WrittenHolds(RIFTS, c.rifts, map[], map[]);
  }

  lemma EventsWritten(c: Config)
    ensures WellFormed(EVENTS)
    ensures Holds(EVENTS, c.events, Table(Written(EVENTS, c.events, EventsSpecials(c.mapMode))),
      map["SeasonMapMode" := Str(ModeName(c.mapMode))])
  {
    EventsWellFormed();
    assert EventsRow(SeasonMapMode).Key() == "SeasonMapMode";
    WrittenHolds(EVENTS, c.events, EventsSpecials(c.mapMode), map["SeasonMapMode" := Str(ModeName(c.mapMode))]);
  }

  lemma RoundedIsNearest(v: real)
    ensures NearestTenth(v, Round1Decimal(v))
  {
    assert 10.0 * Round1Decimal(v) == RoundHalfAway(v * 10.0) as real;
  }

  lemma CheatsWritten(c: Config)
    ensures WellFormed(CHEATS)
    ensures CheatsShown(c, Table(Written(CHEATS, c.cheats, CheatsSpecials(c.moveSpeed, c.attackSpeed))))
  {
    CheatsWellFormed();
    RoundedIsNearest(c.moveSpeed);
    RoundedIsNearest(c.attackSpeed);
    var move, attack := Round1Decimal(c.moveSpeed), Round1Decimal(c.attackSpeed);
    assert CheatsRow(MoveSpeed).Key() == "MovementSpeedMultiplier";
    assert CheatsRow(AttackSpeed).Key() == "AttackSpeedMultiplier";
    assert "MovementSpeedMultiplier"[0] != "AttackSpeedMultiplier"[0];
    WrittenHolds(CHEATS, c.cheats, CheatsSpecials(c.moveSpeed, c.attackSpeed),
      map["MovementSpeedMultiplier" := Float(move), "AttackSpeedMultiplier" := Float(attack)]);
  }

  lemma LootWritten(c: Config)
    ensures WellFormed(LOOT)
    ensures Holds(LOOT, c.loot, Table(Written(LOOT, c.loot, LootSpecials(c.rank, c.rankValue))),
      map["AncientRank" := Str(RankName(c.rank, c.rankValue))])
  {
    LootWellFormed();
    assert LootRow(AncientRank).Key() == "AncientRank";
    WrittenHolds(LOOT, c.loot, LootSpecials(c.rank, c.rankValue),
      map["AncientRank" := Str(RankName(c.rank, c.rankValue))]);
  }

  lemma OverlaysWritten(c: Config)
    ensures WellFormed(OVERLAYS) && Holds(OVERLAYS, c.overlays, Table(Written(OVERLAYS, c.overlays, map[])), map[])
  {
    OverlaysWellFormed();
    WrittenHolds(OVERLAYS, c.overlays, map[], map[]);
  }

  lemma GuiWritten(c: Config)
    ensures WellFormed(GUI)
    ensures Holds(GUI, c.gui, Table(Written(GUI, c.gui, GuiSpecials(c.language))),
      if c.language == "" then map[] else map["Language" := Str(c.language)])
  {
    GuiWellFormed();
    assert GuiRow(Language).Key() == "Language";
    WrittenHolds(GUI, c.gui, GuiSpecials(c.language),
      if c.language == "" then map[] else map["Language" := Str(c.language)]);
  }

  lemma DebugWritten(c: Config)
    ensures WellFormed(DEBUG) && Holds(DEBUG, c.debug, Table(Written(DEBUG, c.debug, map[])), map[])
  {
    DebugWellFormed();
    WrittenHolds(DEBUG, c.debug, map[], map[]);
  }

  lemma ExtraWritten(c: Config)
    ensures WellFormed(EXTRA) && Holds(EXTRA, c.extra, Table(Written(EXTRA, c.extra, map[])), map[])
  {
    ExtraWellFormed();
    WrittenHolds(EXTRA, c.extra, map[], map[]);
  }

  lemma OutputName(extra: Tab, o: Output, f: ResolutionField)
    requires f in ResolutionSpecials(extra, o)
    ensures ResolutionKind(f).Special? && ResolutionRow(f).Key() in OutputShown(Table(extra), o)
    ensures OutputShown(Table(extra), o)[ResolutionRow(f).Key()] == ResolutionSpecials(extra, o)[f]
  {
    assert |"extra"| == 5 && |"OutputTarget"| == 12 && |"OutputHandheldScale"| == 19;
    assert |"MinResScale"| == 11 && |"MaxResScale"| == 11 && "MinResScale"[1] == 'i' && "MaxResScale"[1] == 'a';
  }

  lemma NameOfOutput(extra: Tab, o: Output, k: string)
    requires k in OutputShown(Table(extra), o)
    ensures exists f :: f in ResolutionSpecials(extra, o) && ResolutionRow(f).Key() == k
  {
    assert ResolutionRow(ExtraTable).Key() == "extra" && ResolutionRow(OutputTarget).Key() == "OutputTarget";
    assert ResolutionRow(OutputHandheldScale).Key() == "OutputHandheldScale";
    assert ResolutionRow(MinResScale).Key() == "MinResScale" && ResolutionRow(MaxResScale).Key() == "MaxResScale";
    assert ResolutionRow(ClampTextureResolution).Key() == "ClampTextureResolution";
  }

  lemma SpecialsAreSame(special: map<ResolutionField, Node>, more: Tab)
    requires forall f :: f in special ==> ResolutionKind(f).Special? && ResolutionRow(f).Key() in more
    requires forall f :: f in special ==> more[ResolutionRow(f).Key()] == special[f]
    requires forall k :: k in more ==> exists f :: f in special && ResolutionRow(f).Key() == k
    ensures SameSpecials(RESOLUTION, special, more)
  {
    forall k | k in more ensures exists f :: f in special && RESOLUTION.row(f).Key() == k {
      var f :| f in special && ResolutionRow(f).Key() == k;
      assert RESOLUTION.row(f).Key() == k;
    }
  }

  lemma OutputNames(extra: Tab, o: Output)
    ensures SameSpecials(RESOLUTION, ResolutionSpecials(extra, o), OutputShown(Table(extra), o))
  {
    var special, more := ResolutionSpecials(extra, o), OutputShown(Table(extra), o);
    forall f | f in special
      ensures ResolutionKind(f).Special? && ResolutionRow(f).Key() in more
      ensures more[ResolutionRow(f).Key()] == special[f]
    {
      OutputName(extra, o, f);
    }
    forall k | k in more ensures exists f :: f in special && ResolutionRow(f).Key() == k {
      NameOfOutput(extra, o, k);
    }
    SpecialsAreSame(special, more);
  }

  lemma ResolutionHolds(st: Settings<ResolutionField>, special: map<ResolutionField, Node>, more: Tab)
    requires SameSpecials(RESOLUTION, special, more)
    ensures WellFormed(RESOLUTION) && Holds(RESOLUTION, st, Table(Written(RESOLUTION, st, special)), more)
  {
    ResolutionWellFormed();
    WrittenHolds(RESOLUTION, st, special, more);
  }

  lemma ResolutionWritten(c: Config)
    ensures WellFormed(RESOLUTION) && WellFormed(EXTRA)
    ensures ResolutionShown(c,
      Table(Written(RESOLUTION, c.resolution, ResolutionSpecials(Written(EXTRA, c.extra, map[]), c.output))))
  {
    ExtraWritten(c);
    var extra := Written(EXTRA, c.extra, map[]);
    OutputNames(extra, c.output);
    ResolutionHolds(c.resolution, ResolutionSpecials(extra, c.output), OutputShown(Table(extra), c.output));
  }

  /** The tree that is written for a configuration: nine sections, every field under its name, and nothing else. */
  ghost predicate Shown(c: Config, root: Tab) {
    && root.Keys == {"resolution_hack", "seasons", "challenge_rifts", "events", "rare_cheats", "loot_modifiers",
         "overlays", "gui", "debug"}
    && Holds(SEASONS, c.seasons, root["seasons"], map[])
    && Holds(RIFTS, c.rifts, root["challenge_rifts"], map[])
    && Holds(EVENTS, c.events, root["events"], map["SeasonMapMode" := Str(ModeName(c.mapMode))])
    && CheatsShown(c, root["rare_cheats"])
    && Holds(LOOT, c.loot, root["loot_modifiers"], map["AncientRank" := Str(RankName(c.rank, c.rankValue))])
    && Holds(OVERLAYS, c.overlays, root["overlays"], map[])
    && Holds(GUI, c.gui, root["gui"], if c.language == "" then map[] else map["Language" := Str(c.language)])
    && Holds(DEBUG, c.debug, root["debug"], map[])
    && ResolutionShown(c, root["resolution_hack"])
  }

  lemma RootShown(c: Config, resolution: Node, seasons: Node, rifts: Node, events: Node, cheats: Node, loot: Node,
                  overlays: Node, gui: Node, debug: Node)
    requires Holds(SEASONS, c.seasons, seasons, map[]) && Holds(RIFTS, c.rifts, rifts, map[])
    requires Holds(EVENTS, c.events, events, map["SeasonMapMode" := Str(ModeName(c.mapMode))])
    requires CheatsShown(c, cheats)
    requires Holds(LOOT, c.loot, loot, map["AncientRank" := Str(RankName(c.rank, c.rankValue))])
    requires Holds(OVERLAYS, c.overlays, overlays, map[])
    requires Holds(GUI, c.gui, gui, if c.language == "" then map[] else map["Language" := Str(c.language)])
    requires Holds(DEBUG, c.debug, debug, map[])
    requires ResolutionShown(c, resolution)
    ensures Shown(c, Root(resolution, seasons, rifts, events, cheats, loot, overlays, gui, debug))
  {
    RootFirst(resolution, seasons, rifts, events, cheats, loot, overlays, gui, debug);
    RootLast(resolution, seasons, rifts, events, cheats, loot, overlays, gui, debug);
  }

  lemma BuiltTable(c: Config)
    ensures Shown(c, BuildTable(c))
  {
    SeasonsWritten(c);
    RiftsWritten(c);
    EventsWritten(c);
    CheatsWritten(c);
    LootWritten(c);
    OverlaysWritten(c);
    GuiWritten(c);
    DebugWritten(c);
    ResolutionWritten(c);
    RootShown(c,
      Table(Written(RESOLUTION, c.resolution, ResolutionSpecials(Written(EXTRA, c.extra, map[]), c.output))),
      Table(Written(SEASONS, c.seasons, map[])),
      Table(Written(RIFTS, c.rifts, map[])),
      Table(Written(EVENTS, c.events, EventsSpecials(c.mapMode))),
      Table(Written(CHEATS, c.cheats, CheatsSpecials(c.moveSpeed, c.attackSpeed))),
      Table(Written(LOOT, c.loot, LootSpecials(c.rank, c.rankValue))),
      Table(Written(OVERLAYS, c.overlays, map[])),
      Table(Written(GUI, c.gui, GuiSpecials(c.language))),
      Table(Written(DEBUG, c.debug, map[])));
  }
}
