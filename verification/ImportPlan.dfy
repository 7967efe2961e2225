/** What tools/import_challenge_dumps.py plans in its default mode, and that the plan can be carried out. */
module ImportPlan {
  import opened Options
  import opened Decimals
  import opened Importer

  // ----- the configuration file

  predicate IsFirstSmallest(dumps: seq<Dump>, i: int) {
    && 0 <= i < |dumps|
    && (forall j :: 0 <= j < i ==> dumps[i].size < dumps[j].size)
    && (forall j :: i <= j < |dumps| ==> dumps[i].size <= dumps[j].size)
  }

  /** The chosen file is a smallest one, and the first of those. */
  lemma {:induction false} SmallestFirst(dumps: seq<Dump>)
    requires dumps != []
    ensures PickSmallest(dumps).Some?
    ensures exists i :: IsFirstSmallest(dumps, i) && dumps[i] == PickSmallest(dumps).value
  {
    if |dumps| == 1 {
      assert PickSmallest(dumps[1..]).None?;
      assert IsFirstSmallest(dumps, 0);
    } else {
      var rest := dumps[1..];
      SmallestFirst(rest);
      var i :| IsFirstSmallest(rest, i) && rest[i] == PickSmallest(rest).value;
      assert forall j :: 1 <= j < |dumps| ==> dumps[j] == rest[j - 1];
      if rest[i].size < dumps[0].size {
        assert IsFirstSmallest(dumps, i + 1);
      } else {
        assert forall j :: 0 <= j < |rest| ==> rest[i].size <= rest[j].size;
        assert IsFirstSmallest(dumps, 0);
      }
    }
  }

  // ----- the rifts

  predicate Sorted(dumps: seq<Dump>) {
    forall i, j :: 0 <= i < j < |dumps| ==> dumps[i].mtime <= dumps[j].mtime
  }

  /** The dumps of one time, in their order. */
  function AtTime(dumps: seq<Dump>, t: int): seq<Dump> {
    if dumps == [] then []
    else (if dumps[0].mtime == t then [dumps[0]] else []) + AtTime(dumps[1..], t)
  }

  function Paths(dumps: seq<Dump>): seq<Path> {
    if dumps == [] then [] else [dumps[0].path] + Paths(dumps[1..])
  }

  lemma {:induction false} InsertSorts(d: Dump, dumps: seq<Dump>, low: int)
    requires Sorted(dumps)
    ensures Sorted(InsertByMtime(d, dumps))
    ensures (forall x :: x in dumps ==> low <= x.mtime) && low <= d.mtime ==>
      forall x :: x in InsertByMtime(d, dumps) ==> low <= x.mtime
  {
    if dumps != [] && d.mtime > dumps[0].mtime {
      assert forall x :: x in dumps[1..] ==> x in dumps;
      InsertSorts(d, dumps[1..], dumps[0].mtime);
      InsertSorts(d, dumps[1..], low);
    }
  }

  lemma {:induction false} InsertKeepsPaths(d: Dump, dumps: seq<Dump>)
    ensures multiset(Paths(InsertByMtime(d, dumps))) == multiset{d.path} + multiset(Paths(dumps))
    ensures |InsertByMtime(d, dumps)| == |dumps| + 1
  {
    if dumps == [] || d.mtime <= dumps[0].mtime {
      assert ([d] + dumps)[1..] == dumps;
    } else {
      var r := InsertByMtime(d, dumps[1..]);
      InsertKeepsPaths(d, dumps[1..]);
      assert ([dumps[0]] + r)[1..] == r;
    }
  }

  lemma {:induction false} InsertIsStable(d: Dump, dumps: seq<Dump>, t: int)
    ensures AtTime(InsertByMtime(d, dumps), t) == AtTime([d] + dumps, t)
  {
    assert ([d] + dumps)[1..] == dumps;
    if dumps != [] && d.mtime > dumps[0].mtime {
      var r := InsertByMtime(d, dumps[1..]);
      InsertIsStable(d, dumps[1..], t);
      assert ([dumps[0]] + r)[1..] == r && ([d] + dumps[1..])[1..] == dumps[1..];
    }
  }

  /** The rifts are the dumps in order of time, each path as often as before, and dumps of one time keep their order. */
  lemma {:induction false} SortIsStable(dumps: seq<Dump>, t: int)
    ensures Sorted(SortedByMtime(dumps))
    ensures multiset(Paths(SortedByMtime(dumps))) == multiset(Paths(dumps))
    ensures AtTime(SortedByMtime(dumps), t) == AtTime(dumps, t)
    ensures |SortedByMtime(dumps)| == |dumps|
  {
    if dumps != [] {
      var rest := SortedByMtime(dumps[1..]);
      SortIsStable(dumps[1..], t);
      InsertSorts(dumps[0], rest, dumps[0].mtime);
      InsertKeepsPaths(dumps[0], rest);
      InsertIsStable(dumps[0], rest, t);
      assert ([dumps[0]] + rest)[1..] == rest;
    }
  }

  // ----- names

  /** Different numbers print differently: the numeral tells the number. */
  lemma DecimalInjective(m: nat, n: nat)
    requires Decimal(m) == Decimal(n)
    ensures m == n
  {
    DecimalIsNumeral(m);
    DecimalIsNumeral(n);
  }

  lemma RiftNamesDistinct(i: nat, j: nat)
    requires RiftName(i) == RiftName(j)
    ensures i == j
  {
    var a, b := RiftName(i), RiftName(j);
    assert |"challengerift_"| == 14 && |".dat"| == 4;
    assert a[14..|a| - 4] == Decimal(i) && b[14..|b| - 4] == Decimal(j);
    DecimalInjective(i, j);
  }

  lemma RiftNameIsNotConfig(i: nat)
    ensures RiftName(i) != CONFIG_NAME
  {
    DecimalIsNumeral(i);
    assert |"challengerift_"| == 14;
    assert RiftName(i)[14] == Decimal(i)[0] && Decimal(i)[0] in Decimal(i);
    assert CONFIG_NAME[14] == 'c';
  }

  // ----- the plan

  predicate IsDat(name: string) {
    |name| >= 4 && name[|name| - 4..] == ".dat"
  }

  /** What `glob("*.dat")` gives: paths that are all different, with names that end in `.dat`. */
  ghost predicate Candidates(dumps: seq<Dump>) {
    && (forall i, j :: 0 <= i < j < |dumps| ==> dumps[i].path != dumps[j].path)
    && (forall i :: 0 <= i < |dumps| ==> IsDat(dumps[i].path.name))
  }

  function Sources(plan: seq<Action>): seq<Path> {
    seq(|plan|, i requires 0 <= i < |plan| => plan[i].src)
  }

  lemma {:induction false} PathAt(dumps: seq<Dump>, i: nat)
    requires i < |dumps|
    ensures |Paths(dumps)| == |dumps| && Paths(dumps)[i] == dumps[i].path
  {
    if i > 0 {
      PathAt(dumps[1..], i - 1);
    } else if |dumps| > 1 {
      PathAt(dumps[1..], 0);
    }
  }

  /** Leaving out a path that occurs once takes it out of the paths. */
  lemma {:induction false} OthersWithout(dumps: seq<Dump>, k: nat)
    requires k < |dumps|
    requires forall i :: 0 <= i < |dumps| && i != k ==> dumps[i].path != dumps[k].path
    ensures multiset(Paths(dumps)) == multiset{dumps[k].path} + multiset(Paths(Others(dumps, dumps[k].path)))
    ensures |Others(dumps, dumps[k].path)| == |dumps| - 1
  {
    if k == 0 {
      NoneDropped(dumps[1..], dumps[0].path);
    } else {
      var rest := dumps[1..];
      assert rest[k - 1] == dumps[k];
      OthersWithout(rest, k - 1);
      var o := Others(rest, dumps[k].path);
      assert ([dumps[0]] + o)[1..] == o;
    }
  }

  lemma {:induction false} NoneDropped(dumps: seq<Dump>, path: Path)
    requires forall i :: 0 <= i < |dumps| ==> dumps[i].path != path
    ensures Others(dumps, path) == dumps
  {
    if dumps != [] {
      NoneDropped(dumps[1..], path);
    }
  }

  /** The plan in terms of the chosen file and the rifts. */
  lemma PlanShape(dst: string, dumps: seq<Dump>) returns (k: nat, rifts: seq<Dump>)
    requires Candidates(dumps) && dumps != []
    ensures k < |dumps| && IsFirstSmallest(dumps, k)
    ensures forall i :: 0 <= i < |dumps| && i != k ==> dumps[i].path != dumps[k].path
    ensures rifts == SortedByMtime(Others(dumps, dumps[k].path))
    ensures Plan(dst, dumps) == [Action(dumps[k].path, Path(dst, CONFIG_NAME))] + RiftActions(dst, rifts)
  {
    SmallestFirst(dumps);
    k :| IsFirstSmallest(dumps, k) && dumps[k] == PickSmallest(dumps).value;
    forall i | 0 <= i < |dumps| && i != k ensures dumps[i].path != dumps[k].path {
      if i < k { assert dumps[i].path != dumps[k].path; } else { assert dumps[k].path != dumps[i].path; }
    }
    rifts := SortedByMtime(Others(dumps, dumps[k].path));
  }

  lemma SourcesOf(dst: string, config: Path, rifts: seq<Dump>)
    ensures Sources([Action(config, Path(dst, CONFIG_NAME))] + RiftActions(dst, rifts)) == [config] + Paths(rifts)
  {
    var plan := [Action(config, Path(dst, CONFIG_NAME))] + RiftActions(dst, rifts);
    if rifts != [] {
      PathAt(rifts, 0);
    }
    forall i | 0 <= i < |rifts| ensures Sources(plan)[i + 1] == Paths(rifts)[i] && |Paths(rifts)| == |rifts| {
      PathAt(rifts, i);
    }
    assert |Sources(plan)| == |[config] + Paths(rifts)|;
    forall i | 0 <= i < |Sources(plan)| ensures Sources(plan)[i] == ([config] + Paths(rifts))[i] {
      if i > 0 { assert Sources(plan)[(i - 1) + 1] == Paths(rifts)[i - 1]; }
    }
  }

  /** Every candidate is used exactly once: the first of the smallest as configuration, the others in order of time. */
  lemma EachCandidateOnce(dst: string, dumps: seq<Dump>)
    requires Candidates(dumps)
    ensures multiset(Sources(Plan(dst, dumps))) == multiset(Paths(dumps))
    ensures |Plan(dst, dumps)| == |dumps|
  {
    if dumps != [] {
      var k, rifts := PlanShape(dst, dumps);
      OthersWithout(dumps, k);
      SortIsStable(Others(dumps, dumps[k].path), 0);
      SourcesOf(dst, dumps[k].path, rifts);
    }
  }

  // ----- the plan in terms of the files as they are listed

  /** Of two listed files the first is planned before the second: it is older, or as old and listed before it. */
  predicate Earlier(dumps: seq<Dump>, a: nat, b: nat) {
    a < |dumps| && b < |dumps| &&
    (dumps[a].mtime < dumps[b].mtime || (dumps[a].mtime == dumps[b].mtime && a < b))
  }

  /** `places[i]` is the place in the list from which the sorted sequence has its `i`-th file. */
  ghost predicate SortedFrom(dumps: seq<Dump>, sorted: seq<Dump>, places: seq<nat>) {
    && |places| == |sorted|
    && (forall i :: 0 <= i < |places| ==> places[i] < |dumps| && sorted[i] == dumps[places[i]])
    && (forall i, j :: 0 <= i < j < |places| ==> Earlier(dumps, places[i], places[j]))
  }

  /** Where a file is inserted: behind all older ones, in front of all others. */
  lemma {:induction false} InsertedAt(d: Dump, dumps: seq<Dump>) returns (p: nat)
    requires Sorted(dumps)
    ensures p <= |dumps| && InsertByMtime(d, dumps) == dumps[..p] + [d] + dumps[p..]
    ensures forall i :: 0 <= i < |dumps| ==> if i < p then dumps[i].mtime < d.mtime else d.mtime <= dumps[i].mtime
  {
    if dumps == [] || d.mtime <= dumps[0].mtime {
      return 0;
    }
    var q := InsertedAt(d, dumps[1..]);
    p := q + 1;
    assert forall i :: 0 < i < |dumps| ==> dumps[i] == dumps[1..][i - 1];
  }

  /** The places in a list of which the first file was left out. */
  lemma PlacesBehind(dumps: seq<Dump>, sorted: seq<Dump>, behind: seq<nat>) returns (places: seq<nat>)
    requires dumps != [] && SortedFrom(dumps[1..], sorted, behind)
    ensures SortedFrom(dumps, sorted, places) && forall i :: 0 <= i < |places| ==> places[i] > 0
  {
    places := seq(|behind|, i requires 0 <= i < |behind| => behind[i] + 1);
    forall i, j | 0 <= i < j < |places| ensures Earlier(dumps, places[i], places[j]) {
      assert Earlier(dumps[1..], behind[i], behind[j]);
    }
  }

  /** The first file of the list, inserted behind all older ones. */
  lemma PlacesInserted(dumps: seq<Dump>, sorted: seq<Dump>, places: seq<nat>, p: nat)
    requires dumps != [] && SortedFrom(dumps, sorted, places) && forall i :: 0 <= i < |places| ==> places[i] > 0
    requires p <= |sorted|
    requires forall i :: 0 <= i < |sorted| ==>
      if i < p then sorted[i].mtime < dumps[0].mtime else dumps[0].mtime <= sorted[i].mtime
    ensures SortedFrom(dumps, sorted[..p] + [dumps[0]] + sorted[p..], places[..p] + [0] + places[p..])
  {
    var all := places[..p] + [0] + places[p..];
    forall i, j | 0 <= i < j < |all| ensures Earlier(dumps, all[i], all[j]) {
      if i != p && j != p {
        assert Earlier(dumps, places[if i < p then i else i - 1], places[if j < p then j else j - 1]);
      }
    }
  }

  lemma {:induction false} SortPlaces(dumps: seq<Dump>) returns (places: seq<nat>)
    ensures SortedFrom(dumps, SortedByMtime(dumps), places)
  {
    if dumps == [] {
      return [];
    }
    var rest := SortedByMtime(dumps[1..]);
    var behind := SortPlaces(dumps[1..]);
    var shifted := PlacesBehind(dumps, rest, behind);
    SortIsStable(dumps[1..], 0);
    var p := InsertedAt(dumps[0], rest);
    PlacesInserted(dumps, rest, shifted, p);
    places := shifted[..p] + [0] + shifted[p..];
  }

  /** Leaving out a path that occurs once leaves the files in front of it and those behind it. */
  lemma {:induction false} OthersAround(dumps: seq<Dump>, k: nat)
    requires k < |dumps|
    requires forall i :: 0 <= i < |dumps| && i != k ==> dumps[i].path != dumps[k].path
    ensures Others(dumps, dumps[k].path) == dumps[..k] + dumps[k + 1..]
  {
    if k == 0 {
      NoneDropped(dumps[1..], dumps[0].path);
    } else {
      assert dumps[1..][k - 1] == dumps[k];
      OthersAround(dumps[1..], k - 1);
    }
  }

  /** The places in a list from which one file was left out. */
  lemma PlacesAround(dumps: seq<Dump>, k: nat, sorted: seq<Dump>, around: seq<nat>) returns (places: seq<nat>)
    requires k < |dumps| && SortedFrom(dumps[..k] + dumps[k + 1..], sorted, around)
    ensures SortedFrom(dumps, sorted, places) && k !in places
  {
    var others := dumps[..k] + dumps[k + 1..];
    places := seq(|around|, i requires 0 <= i < |around| => if around[i] < k then around[i] else around[i] + 1);
    forall i, j | 0 <= i < j < |places| ensures Earlier(dumps, places[i], places[j]) {
      assert Earlier(others, around[i], around[j]);
    }
  }

  /**
   The plan, file by file: the first of the smallest files becomes the configuration, and each of the others,
   from old to new and in their listed order where they are equally old, the rift of the next number.
   */
  lemma PlannedFiles(dst: string, dumps: seq<Dump>) returns (places: seq<nat>)
    requires Candidates(dumps) && dumps != []
    ensures |Plan(dst, dumps)| == |dumps| == |places|
    ensures forall i :: 0 <= i < |places| ==> places[i] < |dumps| && Plan(dst, dumps)[i].src == dumps[places[i]].path
    ensures forall i, j :: 0 <= i < j < |places| ==> places[i] != places[j]
    ensures IsFirstSmallest(dumps, places[0])
    ensures forall i, j :: 0 < i < j < |places| ==> Earlier(dumps, places[i], places[j])
  {
    EachCandidateOnce(dst, dumps);
    var k, rifts := PlanShape(dst, dumps);
    OthersAround(dumps, k);
    var around := SortPlaces(dumps[..k] + dumps[k + 1..]);
    var behind := PlacesAround(dumps, k, rifts, around);
    places := [k] + behind;
    forall i, j | 0 < i < j < |places| ensures Earlier(dumps, places[i], places[j]) {
      assert Earlier(dumps, behind[i - 1], behind[j - 1]);
    }
  }

  /** The names: the configuration first, and then the rifts under their numbers, counted from zero. */
  lemma PlannedNames(dst: string, dumps: seq<Dump>, i: nat)
    requires Candidates(dumps) && i < |Plan(dst, dumps)|
    ensures Plan(dst, dumps)[i].dst.dir == dst
    ensures var name := Plan(dst, dumps)[i].dst.name;
      if i == 0 then name == "challengerift_config.dat"
      else exists digits :: IsNumeral(digits, i - 1) && name == "challengerift_" + digits + ".dat"
  {
    DestinationAt(dst, dumps, i);
    if i > 0 {
      DecimalIsNumeral(i - 1);
    }
  }

  /** The plan as the script builds it, one action after the other. */
  method BuildPlan(dst: string, dumps: seq<Dump>) returns (actions: seq<Action>)
    ensures actions == Plan(dst, dumps)
  {
    actions := [];
    var config := PickSmallest(dumps);
    if config.None? {
      return;
    }
    actions := actions + [Action(config.value.path, Path(dst, CONFIG_NAME))];
    var rifts := SortedByMtime(Others(dumps, config.value.path));
    for i := 0 to |rifts|
      invariant actions == [Action(config.value.path, Path(dst, CONFIG_NAME))] + RiftActions(dst, rifts)[..i]
    {
      actions := actions + [Action(rifts[i].path, Path(dst, RiftName(i)))];
    }
  }

  // ----- carrying the plan out

  lemma {:induction false} OncePerPath(dumps: seq<Dump>, p: Path)
    requires Candidates(dumps)
    ensures multiset(Paths(dumps))[p] <= 1
    ensures p in multiset(Paths(dumps)) ==> IsDat(p.name)
  {
    if dumps != [] {
      var rest := dumps[1..];
      assert forall i :: 0 <= i < |rest| ==> rest[i] == dumps[i + 1];
      OncePerPath(rest, p);
      if p == dumps[0].path && p in multiset(Paths(rest)) {
        PathPresent(rest, p);
      }
    }
  }

  lemma {:induction false} PathPresent(dumps: seq<Dump>, p: Path)
    requires p in multiset(Paths(dumps))
    ensures exists i :: 0 <= i < |dumps| && dumps[i].path == p
  {
    if dumps[0].path != p {
      PathPresent(dumps[1..], p);
      var i :| 0 <= i < |dumps[1..]| && dumps[1..][i].path == p;
      assert dumps[i + 1].path == p;
    }
  }

  /** What stands at two places occurs at least twice. */
  lemma TwoPlaces(ps: seq<Path>, i: nat, j: nat)
    requires i < j < |ps| && ps[i] == ps[j]
    ensures multiset(ps)[ps[i]] >= 2
  {
    assert ps == ps[..i] + [ps[i]] + ps[i + 1..j] + [ps[j]] + ps[j + 1..];
  }

  lemma SourcesDistinct(dst: string, dumps: seq<Dump>, i: nat, j: nat)
    requires Candidates(dumps)
    requires i < j < |Plan(dst, dumps)|
    ensures Plan(dst, dumps)[i].src != Plan(dst, dumps)[j].src
  {
    var sources := Sources(Plan(dst, dumps));
    EachCandidateOnce(dst, dumps);
    OncePerPath(dumps, sources[i]);
    if sources[i] == sources[j] {
      TwoPlaces(sources, i, j);
    }
  }

  lemma SourceIsDat(dst: string, dumps: seq<Dump>, i: nat)
    requires Candidates(dumps)
    requires i < |Plan(dst, dumps)|
    ensures IsDat(Plan(dst, dumps)[i].src.name)
    ensures exists k :: 0 <= k < |dumps| && dumps[k].path == Plan(dst, dumps)[i].src
  {
    var sources := Sources(Plan(dst, dumps));
    EachCandidateOnce(dst, dumps);
    assert sources[i] in multiset(sources);
    OncePerPath(dumps, sources[i]);
    PathPresent(dumps, sources[i]);
  }

  /** The name planned for the file at one place of the plan. */
  function TargetName(i: nat): string {
    if i == 0 then CONFIG_NAME else RiftName(i - 1)
  }

  lemma TargetNameIsDat(i: nat)
    ensures IsDat(TargetName(i))
  {
  }

  lemma TargetNamesDistinct(i: nat, j: nat)
    requires i != j
    ensures TargetName(i) != TargetName(j)
  {
    if i == 0 {
      RiftNameIsNotConfig(j - 1);
    } else if j == 0 {
      RiftNameIsNotConfig(i - 1);
    } else if TargetName(i) == TargetName(j) {
      RiftNamesDistinct(i - 1, j - 1);
    }
  }

  lemma DestinationAt(dst: string, dumps: seq<Dump>, i: nat)
    requires Candidates(dumps)
    requires i < |Plan(dst, dumps)|
    ensures Plan(dst, dumps)[i].dst == Path(dst, TargetName(i))
  {
  }

  /** All destinations are `.dat` files of the target directory, and no two are the same. */
  lemma Destinations(dst: string, dumps: seq<Dump>, i: nat, j: nat)
    requires Candidates(dumps)
    requires i < |Plan(dst, dumps)| && j < |Plan(dst, dumps)|
    ensures Plan(dst, dumps)[i].dst.dir == dst && IsDat(Plan(dst, dumps)[i].dst.name)
    ensures i != j ==> Plan(dst, dumps)[i].dst != Plan(dst, dumps)[j].dst
  {
    DestinationAt(dst, dumps, i);
    DestinationAt(dst, dumps, j);
    TargetNameIsDat(i);
    if i != j {
      TargetNamesDistinct(i, j);
    }
  }

  /** A backup is not a `.dat` file. */
  lemma BackupIsNotDat(p: Path)
    ensures !IsDat(BackupOf(p).name)
  {
  }

  /** In a default plan sources and destinations differ among themselves, and backups stay clear of both. */
  lemma DefaultPlanApart(dst: string, dumps: seq<Dump>)
    requires Candidates(dumps)
    ensures Apart(Plan(dst, dumps))
  {
    var plan := Plan(dst, dumps);
    forall i, j | 0 <= i < |plan| && 0 <= j < |plan| && i != j
      ensures plan[i].src != plan[j].src && plan[i].dst != plan[j].dst
    {
      if i < j { SourcesDistinct(dst, dumps, i, j); } else { SourcesDistinct(dst, dumps, j, i); }
      Destinations(dst, dumps, i, j);
    }
    forall i, j | 0 <= i < |plan| && 0 <= j < |plan|
      ensures plan[i].src != BackupOf(plan[j].dst) && plan[i].dst != BackupOf(plan[j].dst)
    {
      SourceIsDat(dst, dumps, i);
      Destinations(dst, dumps, i, j);
      BackupIsNotDat(plan[j].dst);
    }
  }

  /** Nothing but a candidate that is also a destination can keep a default plan from being independent. */
  lemma IndependentUnlessClash(dst: string, dumps: seq<Dump>)
    requires Candidates(dumps)
    ensures Independent(Plan(dst, dumps)) <==> NoClash(Plan(dst, dumps))
  {
    DefaultPlanApart(dst, dumps);
  }

  lemma SourcesPresent(files: Files, dst: string, dumps: seq<Dump>)
    requires Candidates(dumps)
    requires forall i :: 0 <= i < |dumps| ==> dumps[i].path in files
    ensures forall i :: 0 <= i < |Plan(dst, dumps)| ==> Plan(dst, dumps)[i].src in files
  {
    forall i | 0 <= i < |Plan(dst, dumps)| ensures Plan(dst, dumps)[i].src in files {
      SourceIsDat(dst, dumps, i);
    }
  }

  /**
   An import stops with an error exactly if a candidate already has the name it is planned to get: it is
   moved to its backup and then not found.
   */
  lemma DefaultImportStops(copy: bool, files: Files, dst: string, dumps: seq<Dump>)
    requires Candidates(dumps)
    requires forall i :: 0 <= i < |dumps| ==> dumps[i].path in files
    ensures var plan := Plan(dst, dumps);
      PerformAll(copy, files, plan).None? <==> exists i :: 0 <= i < |plan| && plan[i].src == plan[i].dst
  {
    SourcesPresent(files, dst, dumps);
    DefaultPlanApart(dst, dumps);
    StopsOnlyOntoItself(copy, files, Plan(dst, dumps));
  }

  /**
   An import is carried out as the simultaneous assignment exactly if its plan is in order: every
   candidate that has a planned name is brought away before that name is taken; when copying, it may also
   be replaced earlier by another one of the same content.
   */
  lemma DefaultImport(copy: bool, files: Files, dst: string, dumps: seq<Dump>)
    requires Candidates(dumps)
    requires forall i :: 0 <= i < |dumps| ==> dumps[i].path in files
    ensures var plan := Plan(dst, dumps); var r := PerformAll(copy, files, plan);
      (r.Some? && Simultaneous(copy, plan, files, r.value)) <==> InOrder(copy, files, plan)
  {
    SourcesPresent(files, dst, dumps);
    DefaultPlanApart(dst, dumps);
    ExactlyInOrder(copy, files, Plan(dst, dumps));
  }

  /** Importing from another directory never clashes, and so always succeeds as the simultaneous assignment. */
  lemma OtherDirectory(copy: bool, files: Files, dst: string, dumps: seq<Dump>)
    requires Candidates(dumps)
    requires forall i :: 0 <= i < |dumps| ==> dumps[i].path in files && dumps[i].path.dir != dst
    ensures NoClash(Plan(dst, dumps))
    ensures var plan := Plan(dst, dumps); var r := PerformAll(copy, files, plan);
      r.Some? && Simultaneous(copy, plan, files, r.value)
  {
    var plan := Plan(dst, dumps);
    forall i, j | 0 <= i < |plan| && 0 <= j < |plan| ensures plan[i].src != plan[j].dst {
      SourceIsDat(dst, dumps, i);
      Destinations(dst, dumps, j, j);
    }
    DefaultImport(copy, files, dst, dumps);
  }

  // ----- importing a directory into itself

  /** A file planned onto itself is moved to its backup and then not found, so the import stops with an error. */
  lemma {:induction false} OntoItselfFails(copy: bool, files: Files, plan: seq<Action>, i: nat)
    requires i < |plan| && plan[i].src == plan[i].dst
    ensures PerformAll(copy, files, plan).None?
    decreases plan
  {
    var next := Perform(copy, files, plan[0]);
    if i == 0 {
      assert plan[0].dst != BackupOf(plan[0].dst) by {
        assert |BackupOf(plan[0].dst).name| == |plan[0].dst.name| + 4;
      }
    } else if next.Some? {
      OntoItselfFails(copy, next.value, plan[1..], i - 1);
    }
  }

  /** A plan for three files, the smallest first and the others in order of time. */
  lemma PlanOfThree(dst: string, a: Dump, b: Dump, c: Dump)
    requires a.size < b.size && a.size < c.size && b.mtime < c.mtime
    requires a.path != b.path && a.path != c.path
    ensures Plan(dst, [a, b, c]) ==
      [Action(a.path, Path(dst, CONFIG_NAME)), Action(b.path, Path(dst, RiftName(0))),
        Action(c.path, Path(dst, RiftName(1)))]
  {
    var dumps := [a, b, c];
    assert dumps[1..] == [b, c] && [b, c][1..] == [c] && [c][1..] == [];
    assert PickSmallest([c]) == Some(c) && PickSmallest([b, c]).value.size > a.size;
    assert PickSmallest(dumps) == Some(a);
    assert Others([c], a.path) == [c] && Others([b, c], a.path) == [b, c] && Others(dumps, a.path) == [b, c];
    assert SortedByMtime([c]) == [c];
    assert SortedByMtime([b, c]) == [b, c];
  }

  /** Re-importing a directory into itself: the rift that already has its name stops the import. */
  lemma SameDirectoryExample(copy: bool, files: Files, dst: string)
    ensures var dumps := [Dump(Path(dst, "a.dat"), 1, 0), Dump(Path(dst, RiftName(0)), 2, 0)];
      PerformAll(copy, files, Plan(dst, dumps)).None?
  {
    var a, b := Dump(Path(dst, "a.dat"), 1, 0), Dump(Path(dst, RiftName(0)), 2, 0);
    var dumps := [a, b];
    assert |"a.dat"| == 5 && |RiftName(0)| > 5;
    assert dumps[1..] == [b] && [b][1..] == [];
    assert PickSmallest([b]) == Some(b) && PickSmallest(dumps) == Some(a);
    assert Others([b], a.path) == [b] && Others(dumps, a.path) == [b];
    assert SortedByMtime([b]) == [b];
    assert Plan(dst, dumps)[1] == Action(b.path, Path(dst, RiftName(0)));
    OntoItselfFails(copy, files, Plan(dst, dumps), 1);
  }

  lemma RiftNameLonger(i: nat)
    ensures |RiftName(i)| > 18
  {
    DecimalIsNumeral(i);
  }

  /** Three moves, of which the second takes the place that the third starts from. */
  lemma MixedUp(files: Files, a: Path, x: Path, r0: Path, cfg: Path, r1: Path)
    requires a in files && x in files && r0 in files
    requires a != x && r0 !in {a, x} && cfg !in {a, x, r0} && r1 !in {a, x, r0, cfg}
    requires IsDat(a.name) && IsDat(x.name) && IsDat(r0.name) && IsDat(cfg.name) && IsDat(r1.name)
    ensures var r := PerformAll(false, files, [Action(a, cfg), Action(x, r0), Action(r0, r1)]);
      && r.Some? && r0 !in r.value
      && r1 in r.value && r.value[r1] == files[x]
      && BackupOf(r0) in r.value && r.value[BackupOf(r0)] == files[r0]
  {
    BackupIsNotDat(cfg);
    BackupIsNotDat(r0);
    BackupIsNotDat(r1);
    assert BackupOf(cfg) != BackupOf(r0) && BackupOf(r0) != BackupOf(r1) by {
      if BackupOf(cfg) == BackupOf(r0) { BackupsDiffer(cfg, r0); }
      if BackupOf(r0) == BackupOf(r1) { BackupsDiffer(r0, r1); }
    }
    var plan := [Action(a, cfg), Action(x, r0), Action(r0, r1)];
    assert plan[1..] == [plan[1], plan[2]] && plan[1..][1..] == [plan[2]] && [plan[2]][1..] == [];
    OneRound(false, files, plan[0]);
    var f1 := Perform(false, files, plan[0]).value;
    OneRound(false, f1, plan[1]);
    var f2 := Perform(false, f1, plan[1]).value;
    OneRound(false, f2, plan[2]);
    var f3 := Perform(false, f2, plan[2]).value;
    assert PerformAll(false, f2, [plan[2]]) == Some(f3);
    assert PerformAll(false, files, plan) == PerformAll(false, f1, plan[1..]) == Some(f3);
  }

  /**
   Without any error, the wrong rift: the older of two rifts takes the name the newer one still has, and
   is then moved on in its place. The newer one is left in the backup alone.
   */
  lemma SameDirectoryMixesUp(files: Files, dst: string)
    requires var (a, x, r0) := (Path(dst, "a.dat"), Path(dst, "x.dat"), Path(dst, RiftName(0)));
      a in files && x in files && r0 in files
    ensures var (x, r0, r1) := (Path(dst, "x.dat"), Path(dst, RiftName(0)), Path(dst, RiftName(1)));
      var r := PerformAll(false, files, Plan(dst, [Dump(Path(dst, "a.dat"), 1, 0), Dump(x, 2, 0), Dump(r0, 3, 1)]));
      && r.Some? && r0 !in r.value
      && r1 in r.value && r.value[r1] == files[x]
      && BackupOf(r0) in r.value && r.value[BackupOf(r0)] == files[r0]
  {
    var a, x, r0 := Path(dst, "a.dat"), Path(dst, "x.dat"), Path(dst, RiftName(0));
    var cfg, r1 := Path(dst, CONFIG_NAME), Path(dst, RiftName(1));
    RiftNameLonger(0);
    RiftNameLonger(1);
    RiftNameIsNotConfig(0);
    RiftNameIsNotConfig(1);
    if r0 == r1 {
      RiftNamesDistinct(0, 1);
    }
    assert |CONFIG_NAME| == 24 && "a.dat"[0] != "x.dat"[0];
    PlanOfThree(dst, Dump(a, 1, 0), Dump(x, 2, 0), Dump(r0, 3, 1));
    TargetNameIsDat(0);
    TargetNameIsDat(1);
    TargetNameIsDat(2);
    assert IsDat("a.dat") && IsDat("x.dat") by {
      assert "a.dat"[1..] == ".dat" && "x.dat"[1..] == ".dat";
    }
    MixedUp(files, a, x, r0, cfg, r1);
  }
}
