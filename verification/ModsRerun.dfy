/** Running the script again on its own output, and the file around the list of mods. */
module ModsRerun {
  import opened Options
  import opened Json
  import opened ModsJson
  import opened ModsRewrite

  // ----- one entry

  /** Rewriting an entry once is enough: it is enabled, or its path is left as the second run leaves it. */
  predicate Stable(norm: string -> string, mod: Mod, e: Json) {
    !e.Obj? || TargetAfterFirst(norm, mod, e) ||
    match PathOf(e.members)
    case None => true
    case Some(p) => p == "" || norm(p) == "" || norm(norm(p)) == norm(p)
  }

  /** Three assignments to keys that are present, overwritten again, leave what the keys held at last. */
  lemma OverwriteKeys(o: Members, p: Json, name: Json, path: Json, flag: Json)
    requires Get(o, "name") == Some(name) && Get(o, "path") == Some(path) && Get(o, "enabled") == Some(flag)
    ensures var q := Set(Set(Set(o, "enabled", Bool(false)), "path", p), "enabled", Bool(false));
      Set(Set(Set(q, "name", name), "path", path), "enabled", flag) == o
  {
    KeyFacts();
    var q1 := Set(o, "enabled", Bool(false));
    var q2 := Set(q1, "path", p);
    var q3 := Set(q2, "enabled", Bool(false));
    var q4 := Set(q3, "name", name);
    var q5 := Set(q4, "path", path);
    SetAt(o, o, "enabled", Bool(false));
    SetAt(o, q1, "path", p);
    SetAt(o, q2, "enabled", Bool(false));
    SetAt(o, q3, "name", name);
    SetAt(o, q4, "path", path);
    SetAt(o, q5, "enabled", flag);
  }

  /** An entry that has been enabled is rewritten to itself. */
  lemma EnabledTwice(norm: string -> string, mod: Mod, ms: Members)
    requires Disabled(Obj(ms)) == Obj(ms)
    ensures TargetAfterFirst(norm, mod, Obj(EnableEntry(mod, ms)))
    ensures RewrittenEntry(norm, mod, Obj(EnableEntry(mod, ms))) == Obj(EnableEntry(mod, ms))
  {
    var o := EnableEntry(mod, ms);
    KeyFacts();
    AfterEnable(mod, ms);
    AfterFirstPass(norm, o);
    DisabledAfterEnable(mod, ms);
    var n := NormalizePath(norm, o);
    var path := Str(if mod.path == "" then "" else norm(mod.path));
    assert n == Set(o, "path", path);
    DisabledOfSet(o, "path", path);
    DisabledOfSet(n, "enabled", Bool(false));
    OverwriteKeys(o, path, Str(mod.name), Str(mod.path), Bool(true));
  }

  /** An entry that has been disabled is rewritten to itself exactly if its new path is stable. */
  lemma DisabledEntryTwice(norm: string -> string, mod: Mod, e: Json)
    requires e.Obj? && !TargetAfterFirst(norm, mod, e)
    ensures RewrittenEntry(norm, mod, FirstPass(norm, e)) == FirstPass(norm, e) <==> Stable(norm, mod, e)
    ensures Stable(norm, mod, e) ==> !TargetAfterFirst(norm, mod, FirstPass(norm, e))
  {
    var r := FirstPass(norm, e).members;
    AfterFirstPass(norm, e.members);
    AfterFirstPass(norm, r);
    if Stable(norm, mod, e) {
      if PathOf(r).Some? && PathOf(r).value != "" {
        SetSame(r, "path", Str(PathOf(r).value));
      }
      assert NormalizePath(norm, r) == r;
      SetSame(r, "enabled", Bool(false));
    } else {
      var again := FirstPass(norm, Obj(r));
      assert PathOf(again.members) != PathOf(r);
      AfterEnable(mod, again.members);
    }
  }

  lemma EntryTwice(norm: string -> string, mod: Mod, e: Json)
    ensures var o := RewrittenEntry(norm, mod, e);
      && (RewrittenEntry(norm, mod, o) == o <==> Stable(norm, mod, e))
      && (Stable(norm, mod, e) ==> (TargetAfterFirst(norm, mod, o) <==> TargetAfterFirst(norm, mod, e)))
  {
    if e.Obj? {
      if TargetAfterFirst(norm, mod, e) {
        AfterFirstPass(norm, e.members);
        EnabledTwice(norm, mod, FirstPass(norm, e).members);
      } else {
        DisabledEntryTwice(norm, mod, e);
      }
    }
  }

  lemma NewEntryTwice(norm: string -> string, mod: Mod)
    ensures TargetAfterFirst(norm, mod, NewEntry(mod))
    ensures RewrittenEntry(norm, mod, NewEntry(mod)) == NewEntry(mod)
  {
    KeyFacts();
    var a: Members := [Member("name", Str(mod.name))];
    var b := a + [Member("path", Str(mod.path))];
    IndexIs(a, "path", 1);
    IndexIs(b, "enabled", 2);
    assert EnableEntry(mod, []) == NewEntry(mod).members;
    EnabledTwice(norm, mod, []);
  }

  // ----- the list

  /** A second run changes nothing exactly when every entry is stable. */
  lemma RewriteTwice(norm: string -> string, mod: Mod, mods: seq<Json>)
    ensures Rewritten(norm, mod, Rewritten(norm, mod, mods)) == Rewritten(norm, mod, mods)
      <==> forall e :: e in mods ==> Stable(norm, mod, e)
  {
    if forall e :: e in mods ==> Stable(norm, mod, e) {
      SecondRunChangesNothing(norm, mod, mods);
    } else {
      var i :| 0 <= i < |mods| && !Stable(norm, mod, mods[i]);
      EntryTwice(norm, mod, mods[i]);
      assert Rewritten(norm, mod, mods)[i] == RewrittenEntry(norm, mod, mods[i]);
      assert Rewritten(norm, mod, Rewritten(norm, mod, mods))[i] != Rewritten(norm, mod, mods)[i];
    }
  }

  lemma SecondRunChangesNothing(norm: string -> string, mod: Mod, mods: seq<Json>)
    requires forall e :: e in mods ==> Stable(norm, mod, e)
    ensures Rewritten(norm, mod, Rewritten(norm, mod, mods)) == Rewritten(norm, mod, mods)
  {
    var out := Rewritten(norm, mod, mods);
    forall i | 0 <= i < |out| ensures RewrittenEntry(norm, mod, out[i]) == out[i] {
      if i < |mods| {
        EntryTwice(norm, mod, mods[i]);
      } else {
        NewEntryTwice(norm, mod);
      }
    }
    SecondRunFindsTarget(norm, mod, mods);
  }

  lemma SecondRunFindsTarget(norm: string -> string, mod: Mod, mods: seq<Json>)
    requires forall e :: e in mods ==> Stable(norm, mod, e)
    ensures exists e :: e in Rewritten(norm, mod, mods) && TargetAfterFirst(norm, mod, e)
  {
    var out := Rewritten(norm, mod, mods);
    if exists e :: e in mods && TargetAfterFirst(norm, mod, e) {
      var i :| 0 <= i < |mods| && TargetAfterFirst(norm, mod, mods[i]);
      EntryTwice(norm, mod, mods[i]);
      assert out[i] in out;
    } else {
      NewEntryTwice(norm, mod);
      assert out[|mods|] in out;
    }
  }

  /**
   In particular, running the script again changes nothing when path normalisation is stable on the paths
   of the file.
   */
  lemma StablePathsRerun(norm: string -> string, mod: Mod, mods: seq<Json>)
    requires forall e: Json :: e in mods && e.Obj? && PathOf(e.members).Some? ==>
      norm(norm(PathOf(e.members).value)) == norm(PathOf(e.members).value)
    ensures Rewritten(norm, mod, Rewritten(norm, mod, mods)) == Rewritten(norm, mod, mods)
    ensures forall e: Json :: e in mods && e.Obj? ==>
      (TargetAfterFirst(norm, mod, e) <==> IsTarget(norm, mod, e.members))
  {
    RewriteTwice(norm, mod, mods);
    forall e: Json | e in mods && e.Obj? ensures TargetAfterFirst(norm, mod, e) <==> IsTarget(norm, mod, e.members) {
      TargetBeforeAndAfter(norm, mod, e.members);
    }
  }

  /**
   A list whose second rewriting differs from the first: `"/a/.."` normalises to `"/"`, and that to the
   empty path.
   */
  lemma UnstablePathExample(norm: string -> string, mod: Mod)
    requires norm("/a/..") == "/" && norm("/") == ""
    requires norm(mod.path) != "" && mod.suffix != ""
    ensures var mods := [Obj([Member("path", Str("/a/.."))])];
      && !TargetAfterFirst(norm, mod, mods[0])
      && Rewritten(norm, mod, Rewritten(norm, mod, mods)) != Rewritten(norm, mod, mods)
  {
    var ms: Members := [Member("path", Str("/a/.."))];
    var e := Obj(ms);
    KeyFacts();
    IndexIs(ms, "path", 0);
    IndexIs(ms, "name", 1);
    AfterFirstPass(norm, ms);
    assert |"/"| == 1 && |"/a/.."| == 5;
    assert !TargetAfterFirst(norm, mod, e) && !Stable(norm, mod, e);
    assert e in [e];
    RewriteTwice(norm, mod, [e]);
  }

  // ----- the file

  /** The place of the first key that reads "mods" in any case. */
  function ModsIndex(ms: Members): (i: nat)
    ensures i <= |ms|
    ensures i < |ms| ==> ToLower(ms[i].key) == "mods"
    ensures forall j :: 0 <= j < i ==> ToLower(ms[j].key) != "mods"
  {
    if ms == [] then 0 else if ToLower(ms[0].key) == "mods" then 0 else 1 + ModsIndex(ms[1..])
  }

  function ModsKey(ms: Members): string {
    if ModsIndex(ms) < |ms| then ms[ModsIndex(ms)].key else "mods"
  }

  /** The list of mods; anything but a list counts as empty. */
  function ModsOf(ms: Members): seq<Json> {
    match Get(ms, ModsKey(ms))
    case Some(Arr(items)) => items
    case _ => []
  }

  /** The file as it is written back. */
  function RewrittenFile(norm: string -> string, mod: Mod, ms: Members): Members {
    Set(ms, ModsKey(ms), Arr(Rewritten(norm, mod, ModsOf(ms))))
  }

  lemma ModsIndexIs(ms: Members, i: nat)
    requires i <= |ms|
    requires i < |ms| ==> ToLower(ms[i].key) == "mods"
    requires forall j :: 0 <= j < i ==> ToLower(ms[j].key) != "mods"
    ensures ModsIndex(ms) == i
  {
  }

  /** The list is under the first key that reads `mods` in any case, or under `mods` if there is none. */
  lemma ListKey(ms: Members, i: nat)
    requires i <= |ms| && forall j :: 0 <= j < i ==> !Reads(ms[j].key, "mods")
    requires i < |ms| ==> Reads(ms[i].key, "mods")
    ensures ModsKey(ms) == if i < |ms| then ms[i].key else "mods"
  {
    forall j | 0 <= j < |ms| ensures ToLower(ms[j].key) == "mods" <==> Reads(ms[j].key, "mods") {
      ReadsIsLower(ms[j].key, "mods");
    }
    ModsIndexIs(ms, i);
  }

  /** A list that is there is rewritten; without one the file gets a list of the mod alone. */
  lemma ListWritten(norm: string -> string, mod: Mod, ms: Members)
    ensures var (before, after) := (Get(ms, ModsKey(ms)), Get(RewrittenFile(norm, mod, ms), ModsKey(ms)));
      after == Some(Arr(
        if before.Some? && before.value.Arr? then Rewritten(norm, mod, before.value.items)
        else [Obj([Member("name", Str(mod.name)), Member("path", Str(mod.path)), Member("enabled", Bool(true))])]))
  {
    GetAfterSet(ms, ModsKey(ms), Arr(Rewritten(norm, mod, ModsOf(ms))), ModsKey(ms));
    assert Rewritten(norm, mod, []) == [NewEntry(mod)];
  }

  lemma FileKeyStays(norm: string -> string, mod: Mod, ms: Members)
    ensures var r := RewrittenFile(norm, mod, ms);
      && ModsKey(r) == ModsKey(ms)
      && ModsOf(r) == Rewritten(norm, mod, ModsOf(ms))
  {
    var key := ModsKey(ms);
    var r := RewrittenFile(norm, mod, ms);
    assert ToLower("mods") == "mods";
    if ModsIndex(ms) < |ms| {
      ModsIndexIs(r, ModsIndex(ms));
    } else {
      ModsIndexIs(r, |ms|);
    }
    GetAfterSet(ms, key, Arr(Rewritten(norm, mod, ModsOf(ms))), key);
  }

  /** A second run leaves the file as the first one wrote it exactly when every entry of the list is stable. */
  lemma FileTwice(norm: string -> string, mod: Mod, ms: Members)
    ensures RewrittenFile(norm, mod, RewrittenFile(norm, mod, ms)) == RewrittenFile(norm, mod, ms)
      <==> forall e :: e in ModsOf(ms) ==> Stable(norm, mod, e)
    ensures forall key :: key != ModsKey(ms) ==> Get(RewrittenFile(norm, mod, ms), key) == Get(ms, key)
  {
    var once := Rewritten(norm, mod, ModsOf(ms));
    var twice := Rewritten(norm, mod, once);
    var key := ModsKey(ms);
    FileKeyStays(norm, mod, ms);
    RewriteTwice(norm, mod, ModsOf(ms));
    SetTwice(ms, key, Arr(once), Arr(twice));
    GetAfterSet(ms, key, Arr(once), key);
    GetAfterSet(ms, key, Arr(twice), key);
    forall other | other != key ensures Get(RewrittenFile(norm, mod, ms), other) == Get(ms, other) {
      GetAfterSet(ms, key, Arr(once), other);
    }
  }
}
