/**
 `WriteAllAtomic` of source/program/fs_util.cpp on a disk whose every operation may fail: the program
 as a step relation, which says what is on the disk between any two operations, and the method, which
 is proved to take exactly such steps.
 */
module AtomicWrite {
  import opened Options

  /** The three paths the write uses. */
  datatype Name = Final | Tmp | Bak

  /** A file holds a complete text, or is newly created or half written. */
  datatype Content = Torn | Whole(text: string)

  type Files = map<Name, Content>

  /** Neither the file nor its backup is torn; the temporary file may be anything. */
  predicate Sound(files: Files) {
    (Final in files ==> files[Final].Whole?) && (Bak in files ==> files[Bak].Whole?)
  }

  /** The text the disk holds: that of the file or, if there is none, that of the backup. */
  function Held(files: Files): Option<string>
    requires Sound(files)
  {
    if Final in files then Some(files[Final].text)
    else if Bak in files then Some(files[Bak].text)
    else None
  }

  // ----- the program, step by step

  /** The operations of the program, each at its own place in it. */
  datatype Operation =
    | MakeDirs | ClearTmp | CreateTmp | OpenTmp | FillTmp | AskFinal | DropBak | MoveFinal | MoveTmp
    | AskStale | DropStale | AskBak | ReturnBak | ClearTmpAgain

  /** The operations that the disk refuses, should the program come to them. Each is done at most once. */
  type Faults = set<Operation>

  /** Where the program stands between two operations; at the end, what it returns. */
  datatype Point =
    | Start | Ready | Cleared | Created | Opened | Writing | Written | Backing | Moving | Placing
    | Placed | Stale | Restoring | Returning | Discarding | Done(ok: bool)

  datatype Moment = Moment(at: Point, files: Files)

  function Deleted(faults: Faults, op: Operation, s: Files, name: Name): Files {
    if op in faults then s else s - {name}
  }

  /** A refused question is taken for a no. */
  predicate Sees(faults: Faults, op: Operation, s: Files, name: Name) {
    op !in faults && name in s
  }

  /** Creating and renaming are atomic, and refused when something is in the way. */
  predicate CanCreate(faults: Faults, op: Operation, s: Files, name: Name) {
    op !in faults && name !in s
  }

  predicate CanRename(faults: Faults, op: Operation, s: Files, source: Name, target: Name) {
    op !in faults && source in s && target !in s
  }

  function Renamed(s: Files, source: Name, target: Name): Files
    requires source in s
  {
    (s - {source})[target := s[source]]
  }

  /** One operation. Creating reserves the space; a write is torn until it is complete. */
  predicate Next(faults: Faults, text: string, m: Moment, n: Moment) {
    var s := m.files;
    match m.at
    case Start => n == Moment(if MakeDirs in faults then Done(false) else Ready, s)
    case Ready => n == Moment(Cleared, Deleted(faults, ClearTmp, s, Tmp))
    case Cleared =>
      n == if CanCreate(faults, CreateTmp, s, Tmp) then Moment(Created, s[Tmp := Torn]) else Moment(Done(false), s)
    case Created => n == Moment(if OpenTmp in faults then Discarding else Opened, s)
    case Opened => n == Moment(Writing, s[Tmp := Torn])
    case Writing =>
      n == if FillTmp in faults then Moment(Discarding, s) else Moment(Written, s[Tmp := Whole(text)])
    case Written => n == Moment(if Sees(faults, AskFinal, s, Final) then Backing else Placing, s)
    case Backing => n == Moment(Moving, Deleted(faults, DropBak, s, Bak))
    case Moving =>
      n == if CanRename(faults, MoveFinal, s, Final, Bak) then Moment(Placing, Renamed(s, Final, Bak))
        else Moment(Discarding, s)
    case Placing =>
      n == if CanRename(faults, MoveTmp, s, Tmp, Final) then Moment(Placed, Renamed(s, Tmp, Final))
        else Moment(Restoring, s)
    case Placed => n == Moment(if Sees(faults, AskStale, s, Bak) then Stale else Done(true), s)
    case Stale => n == Moment(Done(true), Deleted(faults, DropStale, s, Bak))
    case Restoring => n == Moment(if Sees(faults, AskBak, s, Bak) then Returning else Discarding, s)
    case Returning =>
      n == Moment(Discarding, if CanRename(faults, ReturnBak, s, Bak, Final) then Renamed(s, Bak, Final) else s)
    case Discarding => n == Moment(Done(false), Deleted(faults, ClearTmpAgain, s, Tmp))
    case Done(_) => false
  }

  /** A write of `text` that starts on `before` and has come so far. */
  ghost predicate Run(faults: Faults, before: Files, text: string, run: seq<Moment>) {
    && run != []
    && run[0] == Moment(Start, before)
    && forall i :: 0 < i < |run| ==> Next(faults, text, run[i - 1], run[i])
  }

  function Last(run: seq<Moment>): Moment
    requires run != []
  {
    run[|run| - 1]
  }

  lemma Extend(faults: Faults, before: Files, text: string, run: seq<Moment>, m: Moment)
    requires Run(faults, before, text, run) && Next(faults, text, Last(run), m)
    ensures Run(faults, before, text, run + [m]) && Last(run + [m]) == m
  {
  }

  // ----- what every step keeps

  /** Before the text takes effect, the disk is sound and holds what it held. */
  ghost predicate Untouched(before: Files, s: Files)
    requires Sound(before)
  {
    Sound(s) && Held(s) == Held(before)
  }

  /** Once it has taken effect, the file itself holds the new text. */
  ghost predicate InPlace(text: string, s: Files) {
    Sound(s) && Final in s && s[Final] == Whole(text)
  }

  /** The rename into place has succeeded. */
  predicate Committed(at: Point) {
    at == Placed || at == Stale || at == Done(true)
  }

  /** The file has not been moved out of the way yet. */
  predicate BeforeMove(at: Point) {
    at in {Start, Ready, Cleared, Created, Opened, Writing, Written, Backing, Moving}
  }

  /** The temporary file holds the complete text. */
  predicate TextReady(at: Point) {
    at in {Written, Backing, Moving, Placing}
  }

  ghost predicate Kept(before: Files, text: string, m: Moment)
    requires Sound(before)
  {
    && (if Committed(m.at) then InPlace(text, m.files) && Tmp !in m.files else Untouched(before, m.files))
    && (TextReady(m.at) ==> Tmp in m.files && m.files[Tmp] == Whole(text))
    && (m.at == Backing || m.at == Moving ==> Final in m.files)
    && (BeforeMove(m.at) && Final in before ==> Final in m.files)
  }

  /** Whatever fails, every single operation keeps the invariant. */
  lemma StepKeeps(faults: Faults, before: Files, text: string, m: Moment, n: Moment)
    requires Sound(before) && Kept(before, text, m) && Next(faults, text, m, n)
    ensures Kept(before, text, n)
  {
  }

  lemma {:induction false} RunKeeps(faults: Faults, before: Files, text: string, run: seq<Moment>, i: nat)
    requires Sound(before) && Run(faults, before, text, run) && i < |run|
    ensures Kept(before, text, run[i])
  {
    if i > 0 {
      RunKeeps(faults, before, text, run, i - 1);
      StepKeeps(faults, before, text, run[i - 1], run[i]);
    }
  }

  lemma StaysCommitted(faults: Faults, before: Files, text: string, run: seq<Moment>, i: nat)
    requires Run(faults, before, text, run) && 0 < i < |run|
    ensures Committed(run[i - 1].at) ==> Committed(run[i].at)
  {
  }

  lemma Prefix(faults: Faults, before: Files, text: string, run: seq<Moment>, n: nat)
    requires Run(faults, before, text, run) && 0 < n <= |run|
    ensures Run(faults, before, text, run[..n])
  {
  }

  /** The states of a write: untouched up to some point, in place from there on. */
  ghost predicate WriteRun(before: Files, text: string, run: seq<Moment>, committed: bool)
    requires Sound(before)
  {
    exists k: nat :: SwitchesAt(before, text, run, k) && (committed <==> k < |run|)
  }

  ghost predicate SwitchesAt(before: Files, text: string, run: seq<Moment>, k: nat)
    requires Sound(before)
  {
    && k <= |run|
    && (forall i :: 0 <= i < k ==> Untouched(before, run[i].files))
    && (forall i :: k <= i < |run| ==> InPlace(text, run[i].files))
  }

  lemma RunStays(before: Files, text: string, past: seq<Moment>, m: Moment)
    requires Sound(before)
    requires WriteRun(before, text, past, false) && Untouched(before, m.files)
    ensures WriteRun(before, text, past + [m], false)
  {
    var k: nat :| SwitchesAt(before, text, past, k) && k == |past|;
    assert SwitchesAt(before, text, past + [m], k + 1);
  }

  lemma RunCommits(before: Files, text: string, past: seq<Moment>, committed: bool, m: Moment)
    requires Sound(before)
    requires WriteRun(before, text, past, committed) && InPlace(text, m.files)
    ensures WriteRun(before, text, past + [m], true)
  {
    var k: nat :| SwitchesAt(before, text, past, k) && (committed <==> k < |past|);
    assert SwitchesAt(before, text, past + [m], k);
  }

  /** A write takes effect at one moment or not at all. */
  lemma {:induction false} TakesEffectOnce(faults: Faults, before: Files, text: string, run: seq<Moment>)
    requires Sound(before) && Run(faults, before, text, run)
    ensures WriteRun(before, text, run, Committed(Last(run).at))
    decreases |run|
  {
    var n := |run| - 1;
    if n == 0 {
      assert SwitchesAt(before, text, run, 1);
    } else {
      var past, m := run[..n], run[n];
      assert run == past + [m];
      Prefix(faults, before, text, run, n);
      TakesEffectOnce(faults, before, text, past);
      RunKeeps(faults, before, text, run, n);
      StaysCommitted(faults, before, text, run, n);
      if Committed(m.at) {
        RunCommits(before, text, past, Committed(Last(past).at), m);
      } else {
        RunStays(before, text, past, m);
      }
    }
  }

  // ----- what a write returns and leaves, by the faults of the disk

  /** The text can be written: no step of that is refused, and no old temporary file stays in the way. */
  predicate CanWrite(faults: Faults, before: Files) {
    faults !! {MakeDirs, CreateTmp, OpenTmp, FillTmp} && (Tmp in before ==> ClearTmp !in faults)
  }

  /** A file that is there can be moved aside: it is seen, and no old backup stays in the way. */
  predicate CanMakeWay(faults: Faults, before: Files) {
    Final in before ==> faults !! {AskFinal, MoveFinal} && (Bak in before ==> DropBak !in faults)
  }

  predicate Succeeds(faults: Faults, before: Files) {
    CanWrite(faults, before) && CanMakeWay(faults, before) && MoveTmp !in faults
  }

  /** What a backup that cannot be dropped keeps: the file there was or, without one, the backup there was. */
  function LeftOver(before: Files): Files {
    if Final in before then map[Bak := before[Final]]
    else if Bak in before then map[Bak := before[Bak]]
    else map[]
  }

  /** The disk with the new text in place, and nothing else of the write. */
  function Replaced(before: Files, text: string): Files {
    (before - {Tmp, Bak})[Final := Whole(text)]
  }

  function AfterSuccess(faults: Faults, before: Files, text: string): Files {
    Replaced(before, text) + if AskStale in faults || DropStale in faults then LeftOver(before) else map[]
  }

  /** The disk with the text written beside the file. */
  function Beside(before: Files, text: string): Files {
    before[Tmp := Whole(text)]
  }

  /** The disk with the file moved aside, if there was one. */
  function Aside(before: Files, text: string): Files {
    if Final in before then map[Bak := before[Final], Tmp := Whole(text)] else Beside(before, text)
  }

  predicate SameAt(s: Files, t: Files, name: Name) {
    if name in s then name in t && s[name] == t[name] else name !in t
  }

  lemma SameFiles(s: Files, t: Files)
    requires SameAt(s, t, Final) && SameAt(s, t, Tmp) && SameAt(s, t, Bak)
    ensures s == t
  {
    forall name: Name ensures (name in s <==> name in t) && (name in s ==> s[name] == t[name]) {
      match name {
        case Final =>
        case Tmp =>
        case Bak =>
      }
    }
  }

  /** How far the program has come tells which operations were not refused, and what is on the disk. */
  ghost predicate Tracked(faults: Faults, before: Files, text: string, m: Moment) {
    match m.at
    case Start => m.files == before
    case Ready => MakeDirs !in faults && m.files == before
    case Cleared => MakeDirs !in faults && m.files == Deleted(faults, ClearTmp, before, Tmp)
    case Created =>
      faults !! {MakeDirs, CreateTmp} && (Tmp in before ==> ClearTmp !in faults) && m.files == before[Tmp := Torn]
    case Opened =>
      faults !! {MakeDirs, CreateTmp, OpenTmp} && (Tmp in before ==> ClearTmp !in faults) &&
      m.files == before[Tmp := Torn]
    case Writing =>
      faults !! {MakeDirs, CreateTmp, OpenTmp} && (Tmp in before ==> ClearTmp !in faults) &&
      m.files == before[Tmp := Torn]
    case Written => CanWrite(faults, before) && m.files == Beside(before, text)
    case Backing =>
      CanWrite(faults, before) && Sees(faults, AskFinal, before, Final) && m.files == Beside(before, text)
    case Moving =>
      CanWrite(faults, before) && Sees(faults, AskFinal, before, Final) &&
      m.files == Deleted(faults, DropBak, Beside(before, text), Bak)
    case Placing =>
      CanWrite(faults, before) &&
      if Sees(faults, AskFinal, before, Final) then CanMakeWay(faults, before) && m.files == Aside(before, text)
      else m.files == Beside(before, text)
    case Placed => Succeeds(faults, before) && m.files == Replaced(before, text) + LeftOver(before)
    case Stale =>
      Succeeds(faults, before) && AskStale !in faults && m.files == Replaced(before, text) + LeftOver(before)
    case Done(ok) =>
      && (ok <==> Succeeds(faults, before))
      && (ok ==> m.files == AfterSuccess(faults, before, text))
    case _ => !Succeeds(faults, before)
  }

  lemma TrackedWhileWriting(faults: Faults, before: Files, text: string, m: Moment, n: Moment)
    requires Next(faults, text, m, n) && Tracked(faults, before, text, m)
    requires m.at in {Start, Ready, Cleared, Created, Opened, Writing}
    ensures Tracked(faults, before, text, n)
  {
    assert (before - {Tmp})[Tmp := Torn] == before[Tmp := Torn];
    assert Tmp !in before ==> before - {Tmp} == before;
    assert before[Tmp := Torn][Tmp := Torn] == before[Tmp := Torn];
    assert before[Tmp := Torn][Tmp := Whole(text)] == Beside(before, text);
  }

  lemma TrackedWhileMakingWay(faults: Faults, before: Files, text: string, m: Moment, n: Moment)
    requires Next(faults, text, m, n) && Tracked(faults, before, text, m)
    requires m.at in {Written, Backing, Moving}
    ensures Tracked(faults, before, text, n)
  {
    if Final in before && Bak !in m.files {
      SameFiles(Renamed(m.files, Final, Bak), Aside(before, text));
    }
  }

  lemma TrackedAtReplacing(faults: Faults, before: Files, text: string, m: Moment, n: Moment)
    requires Next(faults, text, m, n) && Tracked(faults, before, text, m) && m.at == Placing
    ensures Tracked(faults, before, text, n)
  {
    if CanRename(faults, MoveTmp, m.files, Tmp, Final) {
      SameFiles(Renamed(m.files, Tmp, Final), Replaced(before, text) + LeftOver(before));
    }
  }

  lemma TrackedAfterReplacing(faults: Faults, before: Files, text: string, m: Moment, n: Moment)
    requires Next(faults, text, m, n) && Tracked(faults, before, text, m)
    requires m.at !in {Start, Ready, Cleared, Created, Opened, Writing, Written, Backing, Moving, Placing}
    ensures Tracked(faults, before, text, n)
  {
    if n.at == Done(true) {
      SameFiles(n.files, AfterSuccess(faults, before, text));
    }
  }

  lemma StepIsTracked(faults: Faults, before: Files, text: string, m: Moment, n: Moment)
    requires Next(faults, text, m, n) && Tracked(faults, before, text, m)
    ensures Tracked(faults, before, text, n)
  {
    if m.at in {Start, Ready, Cleared, Created, Opened, Writing} {
      TrackedWhileWriting(faults, before, text, m, n);
    } else if m.at in {Written, Backing, Moving} {
      TrackedWhileMakingWay(faults, before, text, m, n);
    } else if m.at == Placing {
      TrackedAtReplacing(faults, before, text, m, n);
    } else {
      TrackedAfterReplacing(faults, before, text, m, n);
    }
  }

  lemma {:induction false} RunIsTracked(faults: Faults, before: Files, text: string, run: seq<Moment>, i: nat)
    requires Run(faults, before, text, run) && i < |run|
    ensures Tracked(faults, before, text, run[i])
  {
    if i > 0 {
      RunIsTracked(faults, before, text, run, i - 1);
      StepIsTracked(faults, before, text, run[i - 1], run[i]);
    }
  }

  /** The disk that a single fault leaves when the write gives up. */
  function AfterFailure(before: Files, op: Operation): Files {
    match op
    case MakeDirs => before
    case ClearTmp => before
    case MoveFinal => before - {Tmp, Bak}
    case MoveTmp =>
      if Final in before then before - {Tmp, Bak}
      else if Bak in before then (before - {Tmp, Bak})[Final := before[Bak]]
      else before - {Tmp}
    case _ => before - {Tmp}
  }

  /** After a single fault the disk is known at every point at which the program gives up. */
  ghost predicate Gives(before: Files, text: string, op: Operation, m: Moment) {
    match m.at
    case Restoring => SingleFault(before, text, op, m.files)
    case Returning => SingleFault(before, text, op, m.files) && Bak in m.files
    case Discarding =>
      && op != MakeDirs && op != ClearTmp && op != CreateTmp
      && m.files == AfterFailure(before, op)[Tmp := if op == OpenTmp || op == FillTmp then Torn else Whole(text)]
    case Done(ok) => !ok ==> m.files == AfterFailure(before, op)
    case _ => true
  }

  /** The text cannot be moved into place: that is refused, or the file was not seen and is in the way. */
  predicate SingleFault(before: Files, text: string, op: Operation, s: Files) {
    (op == MoveTmp && s == Aside(before, text)) || (op == AskFinal && Final in before && s == Beside(before, text))
  }

  lemma GivesUpWhileWriting(before: Files, text: string, op: Operation, m: Moment, n: Moment)
    requires Next({op}, text, m, n) && Tracked({op}, before, text, m)
    requires m.at in {Start, Ready, Cleared, Created, Opened, Writing}
    ensures Gives(before, text, op, n)
  {
    if n.at == Discarding {
      SameFiles(n.files, AfterFailure(before, op)[Tmp := Torn]);
    } else if n.at == Done(false) {
      SameFiles(n.files, AfterFailure(before, op));
    }
  }

  lemma GivesUpWhileReplacing(before: Files, text: string, op: Operation, m: Moment, n: Moment)
    requires Next({op}, text, m, n) && Tracked({op}, before, text, m)
    requires m.at in {Written, Backing, Moving, Placing}
    ensures Gives(before, text, op, n)
  {
    if n.at == Discarding {
      SameFiles(n.files, AfterFailure(before, op)[Tmp := Whole(text)]);
    }
  }

  lemma GivesUpAfter(before: Files, text: string, op: Operation, m: Moment, n: Moment)
    requires Next({op}, text, m, n) && Tracked({op}, before, text, m) && Gives(before, text, op, m)
    requires m.at in {Placed, Stale, Restoring, Returning, Discarding}
    ensures Gives(before, text, op, n)
  {
    if n.at == Discarding {
      SameFiles(n.files, AfterFailure(before, op)[Tmp := Whole(text)]);
    } else if n.at == Done(false) {
      SameFiles(n.files, AfterFailure(before, op));
    }
  }

  lemma StepGives(before: Files, text: string, op: Operation, m: Moment, n: Moment)
    requires Next({op}, text, m, n) && Tracked({op}, before, text, m) && Gives(before, text, op, m)
    ensures Gives(before, text, op, n)
  {
    if m.at in {Start, Ready, Cleared, Created, Opened, Writing} {
      GivesUpWhileWriting(before, text, op, m, n);
    } else if m.at in {Written, Backing, Moving, Placing} {
      GivesUpWhileReplacing(before, text, op, m, n);
    } else {
      GivesUpAfter(before, text, op, m, n);
    }
  }

  lemma {:induction false} RunGives(before: Files, text: string, op: Operation, run: seq<Moment>, i: nat)
    requires Run({op}, before, text, run) && i < |run|
    ensures Gives(before, text, op, run[i])
  {
    if i > 0 {
      RunGives(before, text, op, run, i - 1);
      RunIsTracked({op}, before, text, run, i - 1);
      StepGives(before, text, op, run[i - 1], run[i]);
    }
  }

  /**
   What a completed write returns and leaves. It succeeds exactly if the disk refuses nothing on the way to the
   new text and nothing stays in that way; the text is then in place, and only a backup that could not be
   dropped is left. After a single fault that makes it give up, the file is as before, or the backup has taken
   the place of a missing file.
   */
  lemma ResultByFaults(faults: Faults, before: Files, text: string, run: seq<Moment>, ok: bool)
    requires Run(faults, before, text, run) && Last(run).at == Done(ok)
    ensures ok <==> Succeeds(faults, before)
    ensures ok ==> Last(run).files == AfterSuccess(faults, before, text)
    ensures forall op :: faults == {op} && !ok ==> Last(run).files == AfterFailure(before, op)
  {
    RunIsTracked(faults, before, text, run, |run| - 1);
    forall op | faults == {op} ensures Gives(before, text, op, Last(run)) {
      RunGives(before, text, op, run, |run| - 1);
    }
  }

  /** On a disk that refuses nothing a save always succeeds, and leaves the new text alone. */
  lemma SavedWithoutFaults(before: Files, text: string, run: seq<Moment>, ok: bool)
    requires Run({}, before, text, run) && Last(run).at == Done(ok)
    ensures ok && Last(run).files == (before - {Tmp, Bak})[Final := Whole(text)]
  {
    ResultByFaults({}, before, text, run, ok);
    assert Replaced(before, text) + map[] == Replaced(before, text);
  }

  // ----- the program as it runs

  class Disk {
    var files: Files
    var faults: Faults  // what the disk is going to refuse; the program cannot ask

    method DeleteFile(op: Operation, name: Name)
      modifies `files
      ensures files == Deleted(faults, op, old(files), name)
    {
      if op !in faults {
        files := files - {name};
      }
    }

    /** Creating reserves the space; the contents are not there yet. */
    method CreateFile(op: Operation, name: Name) returns (ok: bool)
      modifies `files
      ensures ok <==> CanCreate(faults, op, old(files), name)
      ensures files == if ok then old(files)[name := Torn] else old(files)
    {
      ok := op !in faults && name !in files;
      if ok {
        files := files[name := Torn];
      }
    }

    /** From here on the contents are in doubt, until the write is complete. */
    method BeginWrite(name: Name)
      requires name in files
      modifies `files
      ensures files == old(files)[name := Torn]
    {
      files := files[name := Torn];
    }

    method EndWrite(op: Operation, name: Name, text: string) returns (ok: bool)
      requires name in files
      modifies `files
      ensures ok <==> op !in faults
      ensures files == if ok then old(files)[name := Whole(text)] else old(files)
    {
      ok := op !in faults;
      if ok {
        files := files[name := Whole(text)];
      }
    }

    method RenameFile(op: Operation, source: Name, target: Name) returns (ok: bool)
      modifies `files
      ensures ok <==> CanRename(faults, op, old(files), source, target)
      ensures files == if ok then Renamed(old(files), source, target) else old(files)
    {
      ok := op !in faults && source in files && target !in files;
      if ok {
        files := (files - {source})[target := files[source]];
      }
    }

    /** The check asks the file system, and takes an error for absence. */
    method DoesFileExist(op: Operation, name: Name) returns (yes: bool)
      ensures yes <==> Sees(faults, op, files, name)
    {
      yes := op !in faults && name in files;
    }

    /** A step outside the three paths that may be refused: making the directories, opening a file. */
    method Attempt(op: Operation) returns (ok: bool)
      ensures ok <==> op !in faults
    {
      ok := op !in faults;
    }

    /** The program stands at `at`, after a run that began on `before`. */
    ghost predicate Stands(before: Files, text: string, run: seq<Moment>, at: Point)
      reads this
    {
      Run(faults, before, text, run) && Last(run) == Moment(at, files)
    }

    /**
     Writes the text beside the file, moves the file out of the way, moves the text into place and
     drops the old file. Success is exactly taking effect; on failure the disk holds what it held.
     */
    method WriteAllAtomic(text: string) returns (ok: bool, ghost run: seq<Moment>)
      modifies `files
      ensures Stands(old(files), text, run, Done(ok))
      ensures ok <==> Succeeds(faults, old(files))
      ensures faults == {} ==> ok && files == (old(files) - {Tmp, Bak})[Final := Whole(text)]
      ensures ok ==> files == AfterSuccess(faults, old(files), text)
      ensures forall op :: faults == {op} && !ok ==> files == AfterFailure(old(files), op)
      ensures Sound(old(files)) ==> WriteRun(old(files), text, run, ok)
      ensures Sound(old(files)) ==> if ok then InPlace(text, files) && Tmp !in files else Untouched(old(files), files)
    {
      ghost var before := files;
      ok, run := Write(text);
      ResultByFaults(faults, before, text, run, ok);
      if faults == {} {
        SavedWithoutFaults(before, text, run, ok);
      }
      if Sound(before) {
        TakesEffectOnce(faults, before, text, run);
        RunKeeps(faults, before, text, run, |run| - 1);
      }
    }

    method Write(text: string) returns (ok: bool, ghost run: seq<Moment>)
      modifies `files
      ensures Stands(old(files), text, run, Done(ok))
    {
      ghost var before := files;
      run := [Moment(Start, files)];
      ok := Attempt(MakeDirs);
      Extend(faults, before, text, run, Moment(if ok then Ready else Done(false), files));
      run := run + [Moment(if ok then Ready else Done(false), files)];
      if !ok {
        return;
      }
      ok, run := PrepareTmp(before, text, run);
      if !ok {
        return;
      }
      ok, run := WriteTmp(before, text, run);
      if ok {
        ok, run := MoveAside(before, text, run);
      }
      if !ok {
        run := Discard(before, text, run);
        return;
      }
      ok, run := MoveIntoPlace(before, text, run);
    }

    method PrepareTmp(ghost before: Files, ghost text: string, ghost past: seq<Moment>)
      returns (ok: bool, ghost run: seq<Moment>)
      requires Stands(before, text, past, Ready)
      modifies `files
      ensures Stands(before, text, run, if ok then Created else Done(false))
      ensures ok ==> Tmp in files
    {
      DeleteFile(ClearTmp, Tmp);
      run := past + [Moment(Cleared, files)];
      Extend(faults, before, text, past, Moment(Cleared, files));
      ok := CreateFile(CreateTmp, Tmp);
      Extend(faults, before, text, run, Moment(if ok then Created else Done(false), files));
      run := run + [Moment(if ok then Created else Done(false), files)];
    }

    method WriteTmp(ghost before: Files, text: string, ghost past: seq<Moment>)
      returns (ok: bool, ghost run: seq<Moment>)
      requires Stands(before, text, past, Created) && Tmp in files
      modifies `files
      ensures Stands(before, text, run, if ok then Written else Discarding)
    {
      ok := Attempt(OpenTmp);
      Extend(faults, before, text, past, Moment(if ok then Opened else Discarding, files));
      run := past + [Moment(if ok then Opened else Discarding, files)];
      if !ok {
        return;
      }
      BeginWrite(Tmp);
      Extend(faults, before, text, run, Moment(Writing, files));
      run := run + [Moment(Writing, files)];
      ok := EndWrite(FillTmp, Tmp, text);
      Extend(faults, before, text, run, Moment(if ok then Written else Discarding, files));
      run := run + [Moment(if ok then Written else Discarding, files)];
    }

    /** The old backup goes first, and only while the file itself exists. */
    method MoveAside(ghost before: Files, ghost text: string, ghost past: seq<Moment>)
      returns (ok: bool, ghost run: seq<Moment>)
      requires Stands(before, text, past, Written)
      modifies `files
      ensures Stands(before, text, run, if ok then Placing else Discarding)
    {
      var exists_ := DoesFileExist(AskFinal, Final);
      Extend(faults, before, text, past, Moment(if exists_ then Backing else Placing, files));
      run := past + [Moment(if exists_ then Backing else Placing, files)];
      if !exists_ {
        return true, run;
      }
      DeleteFile(DropBak, Bak);
      Extend(faults, before, text, run, Moment(Moving, files));
      run := run + [Moment(Moving, files)];
      ok := RenameFile(MoveFinal, Final, Bak);
      Extend(faults, before, text, run, Moment(if ok then Placing else Discarding, files));
      run := run + [Moment(if ok then Placing else Discarding, files)];
    }

    method MoveIntoPlace(ghost before: Files, ghost text: string, ghost past: seq<Moment>)
      returns (ok: bool, ghost run: seq<Moment>)
      requires Stands(before, text, past, Placing)
      modifies `files
      ensures Stands(before, text, run, Done(ok))
    {
      ok := RenameFile(MoveTmp, Tmp, Final);
      Extend(faults, before, text, past, Moment(if ok then Placed else Restoring, files));
      run := past + [Moment(if ok then Placed else Restoring, files)];
      if !ok {
        run := PutBack(before, text, run);
        run := Discard(before, text, run);
        return;
      }
      var stale := DoesFileExist(AskStale, Bak);
      Extend(faults, before, text, run, Moment(if stale then Stale else Done(true), files));
      run := run + [Moment(if stale then Stale else Done(true), files)];
      if stale {
        DeleteFile(DropStale, Bak);
        Extend(faults, before, text, run, Moment(Done(true), files));
        run := run + [Moment(Done(true), files)];
      }
    }

    method PutBack(ghost before: Files, ghost text: string, ghost past: seq<Moment>) returns (ghost run: seq<Moment>)
      requires Stands(before, text, past, Restoring)
      modifies `files
      ensures Stands(before, text, run, Discarding)
    {
      var kept := DoesFileExist(AskBak, Bak);
      Extend(faults, before, text, past, Moment(if kept then Returning else Discarding, files));
      run := past + [Moment(if kept then Returning else Discarding, files)];
      if kept {
        var _ := RenameFile(ReturnBak, Bak, Final);
        Extend(faults, before, text, run, Moment(Discarding, files));
        run := run + [Moment(Discarding, files)];
      }
    }

    method Discard(ghost before: Files, ghost text: string, ghost past: seq<Moment>) returns (ghost run: seq<Moment>)
      requires Stands(before, text, past, Discarding)
      modifies `files
      ensures Stands(before, text, run, Done(false))
    {
      DeleteFile(ClearTmpAgain, Tmp);
      Extend(faults, before, text, past, Moment(Done(false), files));
      run := past + [Moment(Done(false), files)];
    }
  }

  // ----- one write, cut short anywhere

  /** A write of `text` started on `before` and was cut short, or ended, with the disk in `after`. */
  ghost predicate CutShort(before: Files, text: string, after: Files) {
    exists faults: Faults, run: seq<Moment>, i: nat ::
      Run(faults, before, text, run) && i < |run| && run[i].files == after
  }

  /** After a crash at any step the disk holds what it held, or the new text is in place. */
  lemma AnyStepIsSafe(before: Files, text: string, after: Files)
    requires Sound(before) && CutShort(before, text, after)
    ensures Untouched(before, after) || InPlace(text, after)
  {
    var faults: Faults, run: seq<Moment>, i: nat :|
      Run(faults, before, text, run) && i < |run| && run[i].files == after;
    RunKeeps(faults, before, text, run, i);
  }

  // ----- what loading sees

  /** Loading reads the file and never the backup; without the file it takes the defaults. */
  function Loaded(files: Files): Option<string>
    requires Sound(files)
  {
    if Final in files then Some(files[Final].text) else None
  }

  /**
   If there was a file, loading after any step sees the old or the new text exactly while there is a
   file. There is none only after it has been moved aside and before the new one is in place, or after
   a failed write that could not put it back; the backup then holds the complete old text.
   */
  lemma LoadingSeesOldOrNew(faults: Faults, before: Files, text: string, run: seq<Moment>, i: nat)
    requires Sound(before) && Final in before
    requires Run(faults, before, text, run) && i < |run|
    ensures Sound(run[i].files)
    ensures var s := run[i].files;
      (Loaded(s) == Some(before[Final].text) || Loaded(s) == Some(text)) <==> Final in s
    ensures Final !in run[i].files ==>
      && run[i].at in {Placing, Restoring, Returning, Discarding, Done(false)}
      && Bak in run[i].files && run[i].files[Bak] == before[Final]
  {
    RunKeeps(faults, before, text, run, i);
  }

  /** The steps of a write over an existing file, up to the moment between the two renames. */
  function RunBetweenRenames(old_: string, text: string): seq<Moment> {
    var before: Files := map[Final := Whole(old_)];
    var torn: Files := map[Final := Whole(old_), Tmp := Torn];
    var written: Files := map[Final := Whole(old_), Tmp := Whole(text)];
    [Moment(Start, before), Moment(Ready, before), Moment(Cleared, before), Moment(Created, torn),
      Moment(Opened, torn), Moment(Writing, torn), Moment(Written, written), Moment(Backing, written),
      Moment(Moving, written), Moment(Placing, map[Bak := Whole(old_), Tmp := Whole(text)])]
  }

  /**
   A crash between the two renames is possible, even on a disk that refuses nothing up to there: nothing is there
   to load, though the old text is in the backup.
   */
  lemma CrashBetweenRenames(faults: Faults, old_: string, text: string)
    requires faults <= {MoveTmp, ReturnBak}
    ensures var run := RunBetweenRenames(old_, text);
      && Run(faults, map[Final := Whole(old_)], text, run)
      && Loaded(Last(run).files) == None
      && Held(Last(run).files) == Some(old_)
  {
    var run := RunBetweenRenames(old_, text);
    assert Renamed(run[8].files, Final, Bak) == run[9].files;
    forall i | 0 < i < |run| ensures Next(faults, text, run[i - 1], run[i]) {
      assert i in {1, 2, 3, 4, 5, 6, 7, 8, 9};
    }
  }

  /** Even without a crash: a write whose last two renames are refused returns an error and leaves nothing to load. */
  lemma FailedWriteLeavesNoFile(old_: string, text: string) returns (run: seq<Moment>)
    ensures Run({MoveTmp, ReturnBak}, map[Final := Whole(old_)], text, run)
    ensures Last(run).at == Done(false)
    ensures Sound(Last(run).files) && Loaded(Last(run).files) == None
    ensures Held(Last(run).files) == Some(old_)
  {
    var faults: Faults := {MoveTmp, ReturnBak};
    var before: Files := map[Final := Whole(old_)];
    var aside: Files := map[Bak := Whole(old_), Tmp := Whole(text)];
    CrashBetweenRenames(faults, old_, text);
    run := RunBetweenRenames(old_, text);
    Extend(faults, before, text, run, Moment(Restoring, aside));
    run := run + [Moment(Restoring, aside)];
    Extend(faults, before, text, run, Moment(Returning, aside));
    run := run + [Moment(Returning, aside)];
    Extend(faults, before, text, run, Moment(Discarding, aside));
    run := run + [Moment(Discarding, aside)];
    Extend(faults, before, text, run, Moment(Done(false), aside - {Tmp}));
    run := run + [Moment(Done(false), aside - {Tmp})];
  }

  // ----- when loading is safe

  /** Whenever the write is cut short or ends, loading sees what it saw before or the new text. */
  ghost predicate LoadIsSafe(before: Files, text: string)
    requires Sound(before)
  {
    forall s :: CutShort(before, text, s) ==> Sound(s) && (Loaded(s) == Loaded(before) || Loaded(s) == Some(text))
  }

  /** What a write keeps where there was no file: a file can only come from the rename into place or from the backup. */
  ghost predicate KeptWithoutFile(before: Files, m: Moment) {
    Committed(m.at) ||
    (&& m.at != Backing && m.at != Moving
     && (Final in m.files ==>
           (m.at == Discarding || m.at == Done(false)) && Bak in before && m.files[Final] == before[Bak])
     && (Bak in m.files ==> Bak in before && m.files[Bak] == before[Bak]))
  }

  lemma {:induction false} RunKeepsWithoutFile(faults: Faults, before: Files, text: string, run: seq<Moment>, i: nat)
    requires Final !in before && Run(faults, before, text, run) && i < |run|
    ensures KeptWithoutFile(before, run[i])
  {
    if i > 0 {
      RunKeepsWithoutFile(faults, before, text, run, i - 1);
      assert Next(faults, text, run[i - 1], run[i]);
    }
  }

  /** The steps up to the written text when nothing is refused, on any disk. */
  function RunToWritten(before: Files, text: string): seq<Moment> {
    var clear := before - {Tmp};
    var torn := clear[Tmp := Torn];
    [Moment(Start, before), Moment(Ready, before), Moment(Cleared, clear), Moment(Created, torn), Moment(Opened, torn),
      Moment(Writing, torn), Moment(Written, clear[Tmp := Whole(text)])]
  }

  lemma WrittenIsReached(faults: Faults, before: Files, text: string)
    requires faults <= {MoveTmp}
    ensures Run(faults, before, text, RunToWritten(before, text))
  {
    var run := RunToWritten(before, text);
    var clear := before - {Tmp};
    assert clear[Tmp := Torn][Tmp := Torn] == clear[Tmp := Torn];
    assert clear[Tmp := Torn][Tmp := Whole(text)] == clear[Tmp := Whole(text)];
    forall i | 0 < i < |run| ensures Next(faults, text, run[i - 1], run[i]) {
      assert i in {1, 2, 3, 4, 5, 6};
    }
  }

  lemma StateIsReached(faults: Faults, before: Files, text: string, run: seq<Moment>)
    requires Run(faults, before, text, run)
    ensures CutShort(before, text, Last(run).files)
  {
    assert run[|run| - 1].files == Last(run).files;
  }

  /** From a disk with a file, a crash between the renames leaves none. */
  lemma NoFileIsReached(before: Files, text: string) returns (s: Files)
    requires Final in before
    ensures CutShort(before, text, s) && Final !in s
  {
    WrittenIsReached({}, before, text);
    var run := RunToWritten(before, text);
    var written := Last(run).files;
    Extend({}, before, text, run, Moment(Backing, written));
    run := run + [Moment(Backing, written)];
    Extend({}, before, text, run, Moment(Moving, written - {Bak}));
    run := run + [Moment(Moving, written - {Bak})];
    s := Renamed(written - {Bak}, Final, Bak);
    Extend({}, before, text, run, Moment(Placing, s));
    run := run + [Moment(Placing, s)];
    StateIsReached({}, before, text, run);
  }

  /** From a disk with a backup and no file, a rename into place that fails brings the backup back. */
  lemma BackupIsBroughtBack(before: Files, text: string) returns (s: Files)
    requires Final !in before && Bak in before
    ensures CutShort(before, text, s) && Final in s && s[Final] == before[Bak]
  {
    var faults: Faults := {MoveTmp};
    WrittenIsReached(faults, before, text);
    var run := RunToWritten(before, text);
    var written := Last(run).files;
    Extend(faults, before, text, run, Moment(Placing, written));
    run := run + [Moment(Placing, written)];
    Extend(faults, before, text, run, Moment(Restoring, written));
    run := run + [Moment(Restoring, written)];
    Extend(faults, before, text, run, Moment(Returning, written));
    run := run + [Moment(Returning, written)];
    s := Renamed(written, Bak, Final);
    Extend(faults, before, text, run, Moment(Discarding, s));
    run := run + [Moment(Discarding, s)];
    StateIsReached(faults, before, text, run);
  }

  /**
   Saving is safe for loading exactly if there is no file yet, and no backup of another text: an existing
   file may be missing afterwards, and a backup left by an earlier crash may come back in its place.
   */
  lemma LoadIsSafeExactly(before: Files, text: string)
    requires Sound(before)
    ensures LoadIsSafe(before, text) <==> Final !in before && (Bak in before ==> before[Bak] == Whole(text))
  {
    if Final in before {
      var s := NoFileIsReached(before, text);
      assert Loaded(before).Some?;
    } else if Bak in before && before[Bak] != Whole(text) {
      var s := BackupIsBroughtBack(before, text);
    } else {
      forall s | CutShort(before, text, s)
        ensures Sound(s) && (Loaded(s) == Loaded(before) || Loaded(s) == Some(text))
      {
        var faults: Faults, run: seq<Moment>, i: nat :|
      Run(faults, before, text, run) && i < |run| && run[i].files == s;
        RunKeeps(faults, before, text, run, i);
        RunKeepsWithoutFile(faults, before, text, run, i);
      }
    }
  }

  // ----- any number of writes, each cut short anywhere

  /** Disks `d[0], d[1], ...` with a write of `texts[i]` between `d[i]` and `d[i + 1]`. */
  ghost predicate Chain(d: seq<Files>, texts: seq<string>) {
    && |d| == |texts| + 1
    && forall i :: 0 <= i < |texts| ==> CutShort(d[i], texts[i], d[i + 1])
  }

  /** No write, wherever it is cut short, leaves a torn file at the path or in the backup. */
  lemma {:induction false} NeverTorn(d: seq<Files>, texts: seq<string>, j: nat)
    requires Chain(d, texts) && Sound(d[0]) && j < |d|
    ensures Sound(d[j])
  {
    if j > 0 {
      NeverTorn(d, texts, j - 1);
      AnyStepIsSafe(d[j - 1], texts[j - 1], d[j]);
    }
  }

  /** Write `i` took effect, and no later one changed what the disk holds. */
  ghost predicate LastEffective(d: seq<Files>, texts: seq<string>, i: nat)
    requires |d| == |texts| + 1 && i < |texts|
  {
    && InPlace(texts[i], d[i + 1])
    && forall j :: i < j < |d| ==> Sound(d[j]) && Held(d[j]) == Some(texts[i])
  }

  /**
   After any number of writes, each cut short at any step, the file is complete or absent and the
   disk holds the text of the last write that took effect, or what it held at the beginning.
   */
  lemma {:induction false} LastEffectiveWriteIsHeld(d: seq<Files>, texts: seq<string>)
    requires Chain(d, texts) && Sound(d[0])
    ensures Sound(d[|texts|])
    ensures Held(d[|texts|]) == Held(d[0]) || exists i :: 0 <= i < |texts| && LastEffective(d, texts, i)
    decreases |texts|
  {
    var n := |texts|;
    if n > 0 {
      var d', texts' := d[..n], texts[..n - 1];
      assert Chain(d', texts') by {
        forall i | 0 <= i < |texts'| ensures CutShort(d'[i], texts'[i], d'[i + 1]) {
          assert CutShort(d[i], texts[i], d[i + 1]);
        }
      }
      LastEffectiveWriteIsHeld(d', texts');
      AnyStepIsSafe(d[n - 1], texts[n - 1], d[n]);
      if InPlace(texts[n - 1], d[n]) {
        assert LastEffective(d, texts, n - 1);
      } else if Held(d[n]) != Held(d[0]) {
        var i :| 0 <= i < |texts'| && LastEffective(d', texts', i);
        assert LastEffective(d, texts, i) by {
          assert d'[i + 1] == d[i + 1] && texts'[i] == texts[i];
          forall j | i < j < |d| ensures Sound(d[j]) && Held(d[j]) == Some(texts[i]) {
            if j < n { assert d'[j] == d[j]; }
          }
        }
      }
    }
  }

  /** Once the disk holds a complete text, it holds one forever. */
  lemma {:induction false} NeverLost(d: seq<Files>, texts: seq<string>, i: nat, j: nat)
    requires Chain(d, texts) && Sound(d[0]) && i <= j < |d|
    requires Final in d[i] || Bak in d[i]
    ensures Sound(d[j]) && Held(d[j]).Some?
    ensures Final !in d[j] ==> Bak in d[j] && d[j][Bak].Whole?
    decreases j
  {
    NeverTorn(d, texts, j);
    if i < j {
      NeverLost(d, texts, i, j - 1);
      AnyStepIsSafe(d[j - 1], texts[j - 1], d[j]);
    }
  }
}
