/** The plan of tools/import_challenge_dumps.py and its execution, file by file. */
module Importer {
  import opened Options
  import opened Decimals

  /** A path as a directory and a file name. */
  datatype Path = Path(dir: string, name: string)

  type Content = string

  type Files = map<Path, Content>

  /** One planned action: bring `src` to `dst`. */
  datatype Action = Action(src: Path, dst: Path)

  // ----- choosing

  /** A candidate with what the file system says about it. */
  datatype Dump = Dump(path: Path, size: nat, mtime: int)

  /** The first of the smallest, as `min` picks it. */
  function PickSmallest(dumps: seq<Dump>): Option<Dump> {
    if dumps == [] then None
    else
      match PickSmallest(dumps[1..])
      case None => Some(dumps[0])
      case Some(d) => if d.size < dumps[0].size then Some(d) else Some(dumps[0])
  }

  /** Insertion behind everything that is not later: the sort stays stable. */
  function InsertByMtime(d: Dump, sorted: seq<Dump>): seq<Dump> {
    if sorted == [] || d.mtime <= sorted[0].mtime then [d] + sorted
    else [sorted[0]] + InsertByMtime(d, sorted[1..])
  }

  function SortedByMtime(dumps: seq<Dump>): seq<Dump> {
    if dumps == [] then [] else InsertByMtime(dumps[0], SortedByMtime(dumps[1..]))
  }

  /** The dumps other than the chosen one, in their order. */
  function Others(dumps: seq<Dump>, path: Path): seq<Dump> {
    if dumps == [] then []
    else if dumps[0].path == path then Others(dumps[1..], path)
    else [dumps[0]] + Others(dumps[1..], path)
  }

  // ----- names

  function RiftName(i: nat): string {
    "challengerift_" + Decimal(i) + ".dat"
  }

  const CONFIG_NAME := "challengerift_config.dat"

  /** `with_suffix(suffix + ".bak")` on a name that has a suffix. */
  function BackupOf(p: Path): Path {
    p.(name := p.name + ".bak")
  }

  // ----- the plan

  function RiftActions(dst: string, rifts: seq<Dump>): seq<Action> {
    seq(|rifts|, i requires 0 <= i < |rifts| => Action(rifts[i].path, Path(dst, RiftName(i))))
  }

  /** The plan in the default mode: the smallest file as the configuration, the others in order of time. */
  function Plan(dst: string, dumps: seq<Dump>): seq<Action> {
    match PickSmallest(dumps)
    case None => []
    case Some(c) => [Action(c.path, Path(dst, CONFIG_NAME))] + RiftActions(dst, SortedByMtime(Others(dumps, c.path)))
  }

  // ----- carrying it out

  /** Moving overwrites the target; a missing source is an error. */
  function Move(files: Files, src: Path, dst: Path): Option<Files> {
    if src !in files then None else Some((files - {src})[dst := files[src]])
  }

  function Copy(files: Files, src: Path, dst: Path): Option<Files> {
    if src !in files then None else Some(files[dst := files[src]])
  }

  /** One round of the loop: an existing target is moved to its backup first. */
  function Perform(copy: bool, files: Files, a: Action): Option<Files> {
    match if a.dst in files then Move(files, a.dst, BackupOf(a.dst)) else Some(files)
    case None => None
    case Some(cleared) => if copy then Copy(cleared, a.src, a.dst) else Move(cleared, a.src, a.dst)
  }

  function PerformAll(copy: bool, files: Files, plan: seq<Action>): Option<Files>
    decreases plan
  {
    if plan == [] then Some(files)
    else
      match Perform(copy, files, plan[0])
      case None => None
      case Some(next) => PerformAll(copy, next, plan[1..])
  }

  /** The loop as it runs; it stops with an error at the first file that is not there. */
  method Execute(copy: bool, files: Files, plan: seq<Action>) returns (r: Option<Files>)
    ensures r == PerformAll(copy, files, plan)
  {
    var state := files;
    for i := 0 to |plan|
      invariant PerformAll(copy, files, plan) == PerformAll(copy, state, plan[i..])
    {
      var a := plan[i];
      assert plan[i..][0] == a && plan[i..][1..] == plan[i + 1..];
      if a.dst in state {
        var backup := BackupOf(a.dst);
        state := (state - {a.dst})[backup := state[a.dst]];
      }
      if a.src !in state {
        return None;
      }
      if copy {
        state := state[a.dst := state[a.src]];
      } else {
        state := (state - {a.src})[a.dst := state[a.src]];
      }
    }
    return Some(state);
  }

  // ----- the plan as one simultaneous assignment

  /** Sources differ, destinations differ, and backups stay clear of both. */
  ghost predicate Apart(plan: seq<Action>) {
    && (forall i, j :: 0 <= i < |plan| && 0 <= j < |plan| && i != j ==>
          plan[i].src != plan[j].src && plan[i].dst != plan[j].dst)
    && (forall i, j :: 0 <= i < |plan| && 0 <= j < |plan| ==>
          plan[i].src != BackupOf(plan[j].dst) && plan[i].dst != BackupOf(plan[j].dst))
  }

  /** No planned destination is itself a source. */
  ghost predicate NoClash(plan: seq<Action>) {
    forall i, j :: 0 <= i < |plan| && 0 <= j < |plan| ==> plan[i].src != plan[j].dst
  }

  /** Sources, destinations and backups do not get into each other's way. */
  ghost predicate Independent(plan: seq<Action>) {
    Apart(plan) && NoClash(plan)
  }

  predicate SameContent(files: Files, p: Path, q: Path) {
    p in files && q in files && files[p] == files[q]
  }

  /**
   A file that is both a source and a destination is brought away before it is replaced; when copying,
   it may also be replaced earlier by a file of the same content.
   */
  ghost predicate InOrder(copy: bool, files: Files, plan: seq<Action>) {
    forall i, j :: 0 <= i < |plan| && 0 <= j < |plan| && plan[i].src == plan[j].dst ==>
      i < j || (copy && j < i && SameContent(files, plan[i].src, plan[j].src))
  }

  ghost predicate IsSource(plan: seq<Action>, p: Path) {
    exists i :: 0 <= i < |plan| && plan[i].src == p
  }

  ghost predicate IsDestination(plan: seq<Action>, p: Path) {
    exists i :: 0 <= i < |plan| && plan[i].dst == p
  }

  /** A file that an action replaces; what is a source itself has been moved away by then, unless copying. */
  ghost predicate IsReplaced(copy: bool, plan: seq<Action>, before: Files, p: Path) {
    p in before && (copy || !IsSource(plan, p))
  }

  ghost predicate IsBackup(copy: bool, plan: seq<Action>, before: Files, p: Path) {
    exists i :: 0 <= i < |plan| && IsReplaced(copy, plan, before, plan[i].dst) && BackupOf(plan[i].dst) == p
  }

  /** All actions at once: every path is described by the files as they were before. */
  ghost predicate Simultaneous(copy: bool, plan: seq<Action>, before: Files, after: Files) {
    && (forall i :: 0 <= i < |plan| ==>
          plan[i].src in before && plan[i].dst in after && after[plan[i].dst] == before[plan[i].src])
    && (forall i :: 0 <= i < |plan| && IsReplaced(copy, plan, before, plan[i].dst) ==>
          var backup := Path(plan[i].dst.dir, plan[i].dst.name + ".bak");
          backup in after && after[backup] == before[plan[i].dst])
    && (forall i :: 0 <= i < |plan| && !IsDestination(plan, plan[i].src) ==>
          if copy then SameAt(before, after, plan[i].src) else plan[i].src !in after)
    && (forall p :: !IsSource(plan, p) && !IsDestination(plan, p) && !IsBackup(copy, plan, before, p) ==>
          SameAt(before, after, p))
  }

  predicate SameAt(before: Files, after: Files, p: Path) {
    (p in before <==> p in after) && (p in before ==> before[p] == after[p])
  }

  lemma BackupsDiffer(p: Path, q: Path)
    requires BackupOf(p) == BackupOf(q)
    ensures p == q
  {
    assert p.name == (p.name + ".bak")[..|p.name + ".bak"| - 4];
    assert q.name == (q.name + ".bak")[..|q.name + ".bak"| - 4];
  }

  /** One round in terms of the files before it. */
  lemma OneRound(copy: bool, files: Files, a: Action)
    requires a.src != a.dst && a.src != BackupOf(a.dst) && a.dst != BackupOf(a.dst)
    ensures Perform(copy, files, a).Some? <==> a.src in files
    ensures a.src in files ==>
      var next := Perform(copy, files, a).value;
      && a.dst in next && next[a.dst] == files[a.src]
      && (a.dst in files ==>
            var backup := Path(a.dst.dir, a.dst.name + ".bak");
            backup in next && next[backup] == files[a.dst])
      && (if copy then SameAt(files, next, a.src) else a.src !in next)
      && forall p :: p != a.src && p != a.dst && (a.dst in files ==> p != BackupOf(a.dst)) ==> SameAt(files, next, p)
  {
  }

  /** What a plan that is apart says of its first action and of the others. */
  lemma FirstApart(plan: seq<Action>)
    requires plan != [] && Apart(plan)
    ensures Apart(plan[1..])
    ensures plan[0].src != BackupOf(plan[0].dst) && plan[0].dst != BackupOf(plan[0].dst)
    ensures forall i :: 0 <= i < |plan[1..]| ==>
      var (a, b) := (plan[0], plan[1..][i]);
      && b.src != a.src && b.dst != a.dst
      && b.src != BackupOf(a.dst) && b.dst != BackupOf(a.dst)
      && BackupOf(b.dst) != a.src && BackupOf(b.dst) != a.dst && BackupOf(b.dst) != BackupOf(a.dst)
  {
    forall i | 0 <= i < |plan[1..]| ensures BackupOf(plan[1..][i].dst) != BackupOf(plan[0].dst) {
      assert plan[1..][i] == plan[i + 1];
      if BackupOf(plan[i + 1].dst) == BackupOf(plan[0].dst) {
        BackupsDiffer(plan[i + 1].dst, plan[0].dst);
      }
    }
  }

  // ----- when a plan stops

  /** With all sources there, a plan stops with an error exactly if it brings some file onto itself. */
  lemma {:induction false} StopsOnlyOntoItself(copy: bool, files: Files, plan: seq<Action>)
    requires Apart(plan)
    requires forall i :: 0 <= i < |plan| ==> plan[i].src in files
    ensures PerformAll(copy, files, plan).Some? <==> forall i :: 0 <= i < |plan| ==> plan[i].src != plan[i].dst
    decreases plan
  {
    if plan != [] {
      var a, rest := plan[0], plan[1..];
      FirstApart(plan);
      assert forall i :: 0 <= i < |rest| ==> rest[i] == plan[i + 1];
      if a.src != a.dst {
        OneRound(copy, files, a);
        StopsOnlyOntoItself(copy, Perform(copy, files, a).value, rest);
        assert (forall i :: 0 <= i < |plan| ==> plan[i].src != plan[i].dst) <==>
          (forall i :: 0 <= i < |rest| ==> rest[i].src != rest[i].dst) by {
          forall i | 0 < i < |plan| ensures plan[i] == rest[i - 1] {
          }
        }
      }
    }
  }

  // ----- a plan in order is the simultaneous assignment

  /** The first round of a plan in order leaves the later sources as they were, and the later replacements. */
  lemma RestUnchanged(copy: bool, files: Files, plan: seq<Action>, next: Files)
    requires plan != [] && Apart(plan) && InOrder(copy, files, plan)
    requires Perform(copy, files, plan[0]) == Some(next)
    ensures forall i :: 0 <= i < |plan[1..]| ==> SameAt(files, next, plan[1..][i].src)
    ensures forall i :: 0 <= i < |plan[1..]| ==> plan[1..][i].dst != plan[0].src ==>
      SameAt(files, next, plan[1..][i].dst)
    ensures InOrder(copy, next, plan[1..])
  {
    var a, rest := plan[0], plan[1..];
    FirstApart(plan);
    assert a.src != a.dst;
    OneRound(copy, files, a);
    forall i | 0 <= i < |rest| ensures SameAt(files, next, rest[i].src) {
      assert rest[i] == plan[i + 1];
    }
    forall i, j | 0 <= i < |rest| && 0 <= j < |rest| && rest[i].src == rest[j].dst
      ensures i < j || (copy && j < i && SameContent(next, rest[i].src, rest[j].src))
    {
      assert rest[i] == plan[i + 1] && rest[j] == plan[j + 1];
      assert SameAt(files, next, rest[i].src) && SameAt(files, next, rest[j].src);
    }
  }

  /** A round of a plan in order, followed by the simultaneous assignment of the rest, is that of the whole. */
  lemma StepThenRest(copy: bool, files: Files, plan: seq<Action>, next: Files, after: Files)
    requires plan != [] && Apart(plan) && InOrder(copy, files, plan)
    requires Perform(copy, files, plan[0]) == Some(next)
    requires Simultaneous(copy, plan[1..], next, after)
    ensures Simultaneous(copy, plan, files, after)
  {
    var a, rest := plan[0], plan[1..];
    FirstApart(plan);
    RestUnchanged(copy, files, plan, next);
    OneRound(copy, files, a);
    assert forall i :: 0 < i < |plan| ==> plan[i] == rest[i - 1];
    FirstStays(copy, files, plan, next, after);
    ReplacedAlike(copy, files, plan, next);
    SourcesAlike(plan);
    forall p | !IsSource(plan, p) && !IsDestination(plan, p) && !IsBackup(copy, plan, files, p)
      ensures SameAt(files, after, p)
    {
      OutsideRest(copy, files, plan, next, after, p);
    }
  }

  lemma SourcesAlike(plan: seq<Action>)
    requires plan != []
    ensures forall p :: IsSource(plan, p) <==> p == plan[0].src || IsSource(plan[1..], p)
    ensures forall p :: IsDestination(plan, p) <==> p == plan[0].dst || IsDestination(plan[1..], p)
  {
    var rest := plan[1..];
    assert forall i :: 0 < i < |plan| ==> plan[i] == rest[i - 1];
    forall p ensures IsSource(plan, p) <==> p == plan[0].src || IsSource(rest, p) {
      if i :| 0 <= i < |rest| && rest[i].src == p {
        assert plan[i + 1].src == p;
      }
    }
    forall p ensures IsDestination(plan, p) <==> p == plan[0].dst || IsDestination(rest, p) {
      if i :| 0 <= i < |rest| && rest[i].dst == p {
        assert plan[i + 1].dst == p;
      }
    }
  }

  /** What the later actions replace is the same before and after the first round. */
  lemma ReplacedAlike(copy: bool, files: Files, plan: seq<Action>, next: Files)
    requires plan != [] && Apart(plan) && InOrder(copy, files, plan)
    requires Perform(copy, files, plan[0]) == Some(next)
    ensures forall i :: 0 <= i < |plan[1..]| ==>
      (IsReplaced(copy, plan, files, plan[1..][i].dst) <==> IsReplaced(copy, plan[1..], next, plan[1..][i].dst))
    ensures forall i :: 0 <= i < |plan[1..]| && IsReplaced(copy, plan, files, plan[1..][i].dst) ==>
      SameAt(files, next, plan[1..][i].dst)
    ensures IsReplaced(copy, plan, files, plan[0].dst) <==> plan[0].dst in files
  {
    var a, rest := plan[0], plan[1..];
    FirstApart(plan);
    OneRound(copy, files, a);
    RestUnchanged(copy, files, plan, next);
    SourcesAlike(plan);
  }

  /**
   What the first round did survives the others: its destination, its backup, and its source unless that
   is replaced.
   */
  lemma FirstStays(copy: bool, files: Files, plan: seq<Action>, next: Files, after: Files)
    requires plan != [] && Apart(plan) && InOrder(copy, files, plan)
    requires Perform(copy, files, plan[0]) == Some(next)
    requires Simultaneous(copy, plan[1..], next, after)
    ensures SameAt(next, after, plan[0].dst)
    ensures SameAt(next, after, BackupOf(plan[0].dst))
    ensures !IsDestination(plan, plan[0].src) ==> SameAt(next, after, plan[0].src)
  {
    var a, rest := plan[0], plan[1..];
    FirstApart(plan);
    assert forall i :: 0 <= i < |rest| ==> rest[i] == plan[i + 1];
    var b := BackupOf(a.dst);
    assert !IsSource(rest, b) && !IsDestination(rest, b) && !IsBackup(copy, rest, next, b);
    assert !IsDestination(rest, a.dst) && !IsBackup(copy, rest, next, a.dst);
    assert !IsSource(rest, a.src) && !IsBackup(copy, rest, next, a.src);
    if i :| 0 <= i < |rest| && rest[i].src == a.dst {
      assert plan[i + 1].src == plan[0].dst;
      assert copy;
    }
    SourcesAlike(plan);
  }

  /** A path that no action touches is left alone by the first one and by the others. */
  lemma OutsideRest(copy: bool, files: Files, plan: seq<Action>, next: Files, after: Files, p: Path)
    requires plan != [] && Apart(plan) && InOrder(copy, files, plan)
    requires Perform(copy, files, plan[0]) == Some(next)
    requires Simultaneous(copy, plan[1..], next, after)
    requires !IsSource(plan, p) && !IsDestination(plan, p) && !IsBackup(copy, plan, files, p)
    ensures SameAt(files, after, p)
  {
    var a, rest := plan[0], plan[1..];
    FirstApart(plan);
    SourcesAlike(plan);
    ReplacedAlike(copy, files, plan, next);
    OneRound(copy, files, a);
    forall i | 0 <= i < |rest| && IsReplaced(copy, rest, next, rest[i].dst) ensures BackupOf(rest[i].dst) != p {
      assert rest[i] == plan[i + 1];
    }
    assert a.dst in files ==> IsReplaced(copy, plan, files, plan[0].dst);
    assert SameAt(files, next, p);
  }

  /**
   Carrying out a plan in order, one action after the other, succeeds exactly if all sources are there,
   and is then the simultaneous assignment.
   */
  lemma {:induction false} InOrderIsSimultaneous(copy: bool, files: Files, plan: seq<Action>)
    requires Apart(plan) && InOrder(copy, files, plan)
    ensures PerformAll(copy, files, plan).Some? <==> forall i :: 0 <= i < |plan| ==> plan[i].src in files
    ensures PerformAll(copy, files, plan).Some? ==> Simultaneous(copy, plan, files, PerformAll(copy, files, plan).value)
    decreases plan
  {
    if plan != [] {
      var a, rest := plan[0], plan[1..];
      FirstApart(plan);
      OneRound(copy, files, a);
      if a.src in files {
        var next := Perform(copy, files, a).value;
        RestUnchanged(copy, files, plan, next);
        InOrderIsSimultaneous(copy, next, rest);
        assert forall i :: 0 < i < |plan| ==> plan[i] == rest[i - 1];
        if PerformAll(copy, next, rest).Some? {
          StepThenRest(copy, files, plan, next, PerformAll(copy, next, rest).value);
        } else {
          var i :| 0 <= i < |rest| && rest[i].src !in next;
          assert plan[i + 1].src !in files;
        }
      }
    }
  }

  /** In particular if sources, destinations and backups are independent. */
  lemma SequentialIsSimultaneous(copy: bool, files: Files, plan: seq<Action>)
    requires Independent(plan)
    ensures PerformAll(copy, files, plan).Some? <==> forall i :: 0 <= i < |plan| ==> plan[i].src in files
    ensures PerformAll(copy, files, plan).Some? ==> Simultaneous(copy, plan, files, PerformAll(copy, files, plan).value)
  {
    InOrderIsSimultaneous(copy, files, plan);
  }

  // ----- a plan out of order is not

  /** A path that no action writes to is not created, and when copying not changed either. */
  lemma {:induction false} NotWritten(copy: bool, files: Files, plan: seq<Action>, p: Path)
    requires PerformAll(copy, files, plan).Some?
    requires forall i :: 0 <= i < |plan| ==> plan[i].dst != p && BackupOf(plan[i].dst) != p
    ensures p in PerformAll(copy, files, plan).value ==> p in files
    ensures copy ==> SameAt(files, PerformAll(copy, files, plan).value, p)
    decreases plan
  {
    if plan != [] {
      NotWritten(copy, Perform(copy, files, plan[0]).value, plan[1..], p);
    }
  }

  /** A file that is moved away after it was replaced is gone in the end. */
  lemma {:induction false} MovedAwayIsGone(files: Files, plan: seq<Action>, i: nat)
    requires Apart(plan) && i < |plan|
    requires PerformAll(false, files, plan).Some?
    requires forall j :: i <= j < |plan| ==> plan[j].dst != plan[i].src
    ensures plan[i].src !in PerformAll(false, files, plan).value
    decreases plan
  {
    FirstApart(plan);
    var next, rest := Perform(false, files, plan[0]).value, plan[1..];
    assert forall k :: 0 < k < |plan| ==> plan[k] == rest[k - 1];
    if i == 0 {
      OneRound(false, files, plan[0]);
      NotWritten(false, next, rest, plan[0].src);
    } else {
      MovedAwayIsGone(next, rest, i - 1);
    }
  }

  /** A file that is copied after it was replaced arrives with its new content. */
  lemma {:induction false} CopiedAsReplaced(files: Files, plan: seq<Action>, i: nat)
    requires Apart(plan) && i < |plan|
    requires PerformAll(true, files, plan).Some?
    requires forall j :: i <= j < |plan| ==> plan[j].dst != plan[i].src
    ensures var after := PerformAll(true, files, plan).value;
      plan[i].src in after && plan[i].dst in after && after[plan[i].dst] == after[plan[i].src]
    decreases plan
  {
    FirstApart(plan);
    var next, rest := Perform(true, files, plan[0]).value, plan[1..];
    assert forall k :: 0 < k < |plan| ==> plan[k] == rest[k - 1];
    if i == 0 {
      OneRound(true, files, plan[0]);
      NotWritten(true, next, rest, plan[0].src);
      NotWritten(true, next, rest, plan[0].dst);
    } else {
      CopiedAsReplaced(next, rest, i - 1);
    }
  }

  /** With all sources there, a plan is carried out as the simultaneous assignment exactly if it is in order. */
  lemma ExactlyInOrder(copy: bool, files: Files, plan: seq<Action>)
    requires Apart(plan)
    requires forall i :: 0 <= i < |plan| ==> plan[i].src in files
    ensures var r := PerformAll(copy, files, plan);
      (r.Some? && Simultaneous(copy, plan, files, r.value)) <==> InOrder(copy, files, plan)
  {
    var r := PerformAll(copy, files, plan);
    if InOrder(copy, files, plan) {
      InOrderIsSimultaneous(copy, files, plan);
    } else {
      StopsOnlyOntoItself(copy, files, plan);
      var i, j :| 0 <= i < |plan| && 0 <= j < |plan| && plan[i].src == plan[j].dst &&
        !(i < j || (copy && j < i && files[plan[i].src] == files[plan[j].src]));
      if r.Some? && j < i {
        if copy {
          CopiedAsReplaced(files, plan, i);
        } else {
          MovedAwayIsGone(files, plan, i);
        }
      }
    }
  }
}
