/**
 The two passes of misc/scripts/ryu_enable_only_mod.py over the list of mods.

 `norm` is the script's path normalisation. It is any function here: nothing is assumed of it, and
 where the result depends on a property of it, the property is stated.
 */
module ModsRewrite {
  import opened Options
  import opened Json
  import opened ModsJson

  /** The mod to enable: its name, its normalised path, and the normalised suffix its path may end in. */
  datatype Mod = Mod(name: string, path: string, suffix: string)

  function EndsWith(s: string, suffix: string): bool {
    |suffix| <= |s| && s[|s| - |suffix|..] == suffix
  }

  /** The path an entry is compared by, if it has one. */
  function PathOf(ms: Members): Option<string> {
    match Get(ms, "path")
    case Some(Str(p)) => Some(p)
    case _ => None
  }

  predicate IsTarget(norm: string -> string, mod: Mod, ms: Members) {
    || (PathOf(ms).Some? && (norm(PathOf(ms).value) == norm(mod.path) || EndsWith(norm(PathOf(ms).value), mod.suffix)))
    || Get(ms, "name") == Some(Str(mod.name))
  }

  function EnableEntry(mod: Mod, ms: Members): Members {
    Set(Set(Set(ms, "name", Str(mod.name)), "path", Str(mod.path)), "enabled", Bool(true))
  }

  function Enabled(mod: Mod, e: Json): Json {
    if e.Obj? then Obj(EnableEntry(mod, e.members)) else e
  }

  function NormalizePath(norm: string -> string, ms: Members): Members {
    match PathOf(ms)
    case Some(p) => if p != "" then Set(ms, "path", Str(norm(p))) else ms
    case None => ms
  }

  /** First pass over one entry: the path is normalised and every flag is switched off. */
  function FirstPass(norm: string -> string, e: Json): Json {
    match e
    case Obj(ms) => Disabled(Obj(Set(NormalizePath(norm, ms), "enabled", Bool(false))))
    case _ => e
  }

  predicate IsTargetEntry(norm: string -> string, mod: Mod, entry: Json) {
    entry.Obj? && IsTarget(norm, mod, entry.members)
  }

  /** Second pass over one entry. */
  function SecondPass(norm: string -> string, mod: Mod, entry: Json): Json {
    if IsTargetEntry(norm, mod, entry) then Enabled(mod, entry) else entry
  }

  predicate TargetAfterFirst(norm: string -> string, mod: Mod, e: Json) {
    IsTargetEntry(norm, mod, FirstPass(norm, e))
  }

  /** What both passes make of one entry. */
  function RewrittenEntry(norm: string -> string, mod: Mod, e: Json): Json {
    SecondPass(norm, mod, FirstPass(norm, e))
  }

  function NewEntry(mod: Mod): Json {
    Obj([Member("name", Str(mod.name)), Member("path", Str(mod.path)), Member("enabled", Bool(true))])
  }

  function RewriteEach(norm: string -> string, mod: Mod, mods: seq<Json>): seq<Json> {
    seq(|mods|, i requires 0 <= i < |mods| => RewrittenEntry(norm, mod, mods[i]))
  }

  /** The list that is written: every entry rewritten, and one appended if none was a target. */
  function Rewritten(norm: string -> string, mod: Mod, mods: seq<Json>): seq<Json> {
    RewriteEach(norm, mod, mods)
    + if exists e :: e in mods && TargetAfterFirst(norm, mod, e) then [] else [NewEntry(mod)]
  }

  /** The first pass as it runs. */
  method NormalizeAndDisable(norm: string -> string, mods: seq<Json>) returns (entries: seq<Json>)
    ensures |entries| == |mods| && forall i :: 0 <= i < |mods| ==> entries[i] == FirstPass(norm, mods[i])
  {
    entries := mods;
    for i := 0 to |entries|
      invariant |entries| == |mods|
      invariant forall j :: 0 <= j < i ==> entries[j] == FirstPass(norm, mods[j])
      invariant forall j :: i <= j < |mods| ==> entries[j] == mods[j]
    {
      if entries[i].Obj? {
        var ms := NormalizePath(norm, entries[i].members);
        ms := Set(ms, "enabled", Bool(false));
        var disabled := DisableEnabledFlags(Obj(ms));
        entries := entries[i := disabled];
      }
    }
  }

  function EnableEach(isTarget: Json -> bool, enable: Json -> Json, entries: seq<Json>): seq<Json> {
    seq(|entries|, i requires 0 <= i < |entries| => if isTarget(entries[i]) then enable(entries[i]) else entries[i])
  }

  /**
   The second pass over a whole list, for any test and any way of enabling: enable the targets, or append
   one entry.
   */
  function EnableOrAppend(isTarget: Json -> bool, enable: Json -> Json, extra: Json, entries: seq<Json>): seq<Json> {
    EnableEach(isTarget, enable, entries) + if exists e :: e in entries && isTarget(e) then [] else [extra]
  }

  /** The second pass as it runs, for the script's closures `is_target` and `enable_entry`. */
  method EnableTargets(isTarget: Json -> bool, enable: Json -> Json, extra: Json, entries: seq<Json>)
    returns (updated: seq<Json>)
    ensures updated == EnableOrAppend(isTarget, enable, extra, entries)
  {
    updated := [];
    var found := false;
    for i := 0 to |entries|
      invariant |updated| == i
      invariant forall j :: 0 <= j < i ==> updated[j] == if isTarget(entries[j]) then enable(entries[j]) else entries[j]
      invariant found <==> exists j :: 0 <= j < i && isTarget(entries[j])
    {
      var entry := entries[i];
      if isTarget(entry) {
        found := true;
        entry := enable(entry);
      }
      updated := updated + [entry];
    }
    assert found <==> exists e :: e in entries && isTarget(e);
    if !found {
      updated := updated + [extra];
    }
  }

  function TargetTest(norm: string -> string, mod: Mod): Json -> bool {
    e => IsTargetEntry(norm, mod, e)
  }

  function Enabler(mod: Mod): Json -> Json {
    e => Enabled(mod, e)
  }

  lemma RewrittenInTwoPasses(norm: string -> string, mod: Mod, mods: seq<Json>, entries: seq<Json>)
    requires |entries| == |mods| && forall i :: 0 <= i < |mods| ==> entries[i] == FirstPass(norm, mods[i])
    ensures EnableOrAppend(TargetTest(norm, mod), Enabler(mod), NewEntry(mod), entries) == Rewritten(norm, mod, mods)
  {
    TargetFound(norm, mod, mods, entries);
    EachInTwoPasses(norm, mod, mods, entries);
  }

  lemma EachInTwoPasses(norm: string -> string, mod: Mod, mods: seq<Json>, entries: seq<Json>)
    requires |entries| == |mods| && forall i :: 0 <= i < |mods| ==> entries[i] == FirstPass(norm, mods[i])
    ensures EnableEach(TargetTest(norm, mod), Enabler(mod), entries) == RewriteEach(norm, mod, mods)
  {
  }

  /** A target among the entries after the first pass is a target among the mods. */
  lemma TargetFound(norm: string -> string, mod: Mod, mods: seq<Json>, entries: seq<Json>)
    requires |entries| == |mods| && forall i :: 0 <= i < |mods| ==> entries[i] == FirstPass(norm, mods[i])
    ensures (exists e :: e in entries && TargetTest(norm, mod)(e)) <==>
      exists e :: e in mods && TargetAfterFirst(norm, mod, e)
  {
    if exists e :: e in mods && TargetAfterFirst(norm, mod, e) {
      var i :| 0 <= i < |mods| && TargetAfterFirst(norm, mod, mods[i]);
      assert entries[i] in entries && TargetTest(norm, mod)(entries[i]);
    }
    if e :| e in entries && TargetTest(norm, mod)(e) {
      var i :| 0 <= i < |entries| && entries[i] == e;
      assert mods[i] in mods && TargetAfterFirst(norm, mod, mods[i]);
    }
  }

  /** Both passes, and the entry appended at the end. */
  method RewriteMods(norm: string -> string, mod: Mod, mods: seq<Json>) returns (updated: seq<Json>)
    ensures updated == Rewritten(norm, mod, mods)
  {
    var entries := NormalizeAndDisable(norm, mods);
    updated := EnableTargets(TargetTest(norm, mod), Enabler(mod), NewEntry(mod), entries);
    RewrittenInTwoPasses(norm, mod, mods, entries);
  }

  // ----- one entry

  predicate IsOn(e: Json) {
    e.Obj? && Get(e.members, "enabled") == Some(Bool(true))
  }

  lemma KeyFacts()
    ensures !IsFlagKey("path") && !IsFlagKey("name") && IsFlagKey("enabled")
    ensures "path" != "name" && "path" != "enabled" && "name" != "enabled"
  {
  }

  lemma GetDisabled(ms: Members, key: string)
    ensures IndexOf(DisabledMembers(ms), key) == IndexOf(ms, key)
    ensures Get(DisabledMembers(ms), key) ==
      match Get(ms, key)
      case None => None
      case Some(v) => Some(if IsFlagKey(key) then Bool(false) else DisabledBelow(v))
  {
  }

  /** The entry between normalising its path and switching its flags off. */
  lemma AfterNormalizing(norm: string -> string, ms: Members)
    ensures var s := Set(NormalizePath(norm, ms), "enabled", Bool(false));
      && Get(s, "enabled") == Some(Bool(false))
      && Get(s, "name") == Get(ms, "name")
      && Get(s, "path") == (
        match PathOf(ms)
        case None => Get(ms, "path")
        case Some(p) => Some(Str(if p == "" then "" else norm(p))))
  {
    KeyFacts();
    var n := NormalizePath(norm, ms);
    if PathOf(ms).Some? && PathOf(ms).value != "" {
      GetAfterSet(ms, "path", Str(norm(PathOf(ms).value)), "path");
      GetAfterSet(ms, "path", Str(norm(PathOf(ms).value)), "name");
    }
    GetAfterSet(n, "enabled", Bool(false), "enabled");
    GetAfterSet(n, "enabled", Bool(false), "name");
    GetAfterSet(n, "enabled", Bool(false), "path");
  }

  lemma AfterFirstPass(norm: string -> string, ms: Members)
    ensures var r := FirstPass(norm, Obj(ms)).members;
      && Get(r, "enabled") == Some(Bool(false))
      && (Get(ms, "name").None? ==> Get(r, "name").None?)
      && (Get(ms, "name").Some? ==> Get(r, "name") == Some(DisabledBelow(Get(ms, "name").value)))
      && PathOf(r) == (match PathOf(ms) case None => None case Some(p) => Some(if p == "" then "" else norm(p)))
      && Disabled(Obj(r)) == Obj(r)
  {
    KeyFacts();
    AfterNormalizing(norm, ms);
    var s := Set(NormalizePath(norm, ms), "enabled", Bool(false));
    GetDisabled(s, "enabled");
    GetDisabled(s, "name");
    GetDisabled(s, "path");
    DisabledTwice(Obj(s));
  }

  lemma AfterEnable(mod: Mod, ms: Members)
    ensures var r := EnableEntry(mod, ms);
      && Get(r, "name") == Some(Str(mod.name))
      && Get(r, "path") == Some(Str(mod.path))
      && Get(r, "enabled") == Some(Bool(true))
  {
    KeyFacts();
    var s1 := Set(ms, "name", Str(mod.name));
    var s2 := Set(s1, "path", Str(mod.path));
    GetAfterSet(ms, "name", Str(mod.name), "name");
    GetAfterSet(s1, "path", Str(mod.path), "name");
    GetAfterSet(s1, "path", Str(mod.path), "path");
    GetAfterSet(s2, "enabled", Bool(true), "name");
    GetAfterSet(s2, "enabled", Bool(true), "path");
    GetAfterSet(s2, "enabled", Bool(true), "enabled");
  }

  /** A value as it stands after the flags below it are off, if there is one. */
  function WithoutFlags(key: string, v: Option<Json>): Option<Json> {
    match v
    case None => None
    case Some(x) => Some(if IsFlagKey(key) then Bool(false) else DisabledBelow(x))
  }

  /** The keys the script assigns in an entry. */
  predicate IsAssigned(key: string) {
    key == "name" || key == "path" || key == "enabled"
  }

  lemma KeptByFirstPass(norm: string -> string, ms: Members, key: string)
    requires !IsAssigned(key)
    ensures Get(FirstPass(norm, Obj(ms)).members, key) == WithoutFlags(key, Get(ms, key))
  {
    var n := NormalizePath(norm, ms);
    if PathOf(ms).Some? && PathOf(ms).value != "" {
      GetAfterSet(ms, "path", Str(norm(PathOf(ms).value)), key);
    }
    GetAfterSet(n, "enabled", Bool(false), key);
    GetDisabled(Set(n, "enabled", Bool(false)), key);
  }

  lemma KeptByEnabling(mod: Mod, ms: Members, key: string)
    requires !IsAssigned(key)
    ensures Get(EnableEntry(mod, ms), key) == Get(ms, key)
  {
    var s1 := Set(ms, "name", Str(mod.name));
    var s2 := Set(s1, "path", Str(mod.path));
    GetAfterSet(ms, "name", Str(mod.name), key);
    GetAfterSet(s1, "path", Str(mod.path), key);
    GetAfterSet(s2, "enabled", Bool(true), key);
  }

  /** No key but the three that the script assigns gains, loses or changes its value beyond its flags. */
  lemma OtherKeysKept(norm: string -> string, mod: Mod, e: Json, key: string)
    requires e.Obj? && !IsAssigned(key)
    ensures RewrittenEntry(norm, mod, e).Obj?
    ensures Get(RewrittenEntry(norm, mod, e).members, key) == WithoutFlags(key, Get(e.members, key))
  {
    KeptByFirstPass(norm, e.members, key);
    KeptByEnabling(mod, FirstPass(norm, e).members, key);
  }

  /** Normalising an entry's path does not change whether it is a target, if its path is stable. */
  lemma TargetBeforeAndAfter(norm: string -> string, mod: Mod, ms: Members)
    requires PathOf(ms).Some? && PathOf(ms).value != "" ==> norm(norm(PathOf(ms).value)) == norm(PathOf(ms).value)
    ensures TargetAfterFirst(norm, mod, Obj(ms)) <==> IsTarget(norm, mod, ms)
  {
    AfterFirstPass(norm, ms);
  }

  // ----- the whole list

  /** What is written for an entry: on, under the mod's name and path, or off, under its own; other keys are kept. */
  ghost predicate ProperlyRewritten(norm: string -> string, mod: Mod, before: Json, target: bool, after: Json) {
    if !before.Obj? then after == before
    else
      && after.Obj?
      && Get(after.members, "enabled") == Some(Bool(target))
      && (if target then
            Get(after.members, "name") == Some(Str(mod.name)) && Get(after.members, "path") == Some(Str(mod.path))
          else
            && Get(after.members, "name") == WithoutFlags("name", Get(before.members, "name"))
            && PathOf(after.members) ==
              match PathOf(before.members)
              case None => None
              case Some(p) => Some(if p == "" then "" else norm(p)))
      && (forall key :: !IsAssigned(key) ==>
            Get(after.members, key) == WithoutFlags(key, Get(before.members, key)))
      // every other flag, at any depth, is off
      && Disabled(after) == Obj(Set(after.members, "enabled", Bool(false)))
  }

  lemma EntryRewritten(norm: string -> string, mod: Mod, e: Json)
    ensures ProperlyRewritten(norm, mod, e, TargetAfterFirst(norm, mod, e), RewrittenEntry(norm, mod, e))
  {
    if e.Obj? {
      var ms := FirstPass(norm, e).members;
      AfterFirstPass(norm, e.members);
      KeyFacts();
      forall key | !IsAssigned(key)
        ensures Get(RewrittenEntry(norm, mod, e).members, key) == WithoutFlags(key, Get(e.members, key))
      {
        OtherKeysKept(norm, mod, e, key);
      }
      if TargetAfterFirst(norm, mod, e) {
        AfterEnable(mod, ms);
        DisabledAfterEnable(mod, ms);
      } else {
        SetSame(ms, "enabled", Bool(false));
      }
    }
  }

  lemma DisabledOfSet(ms: Members, key: string, value: Json)
    ensures DisabledMembers(Set(ms, key, value)) ==
      Set(DisabledMembers(ms), key, if IsFlagKey(key) then Bool(false) else DisabledBelow(value))
  {
  }

  /** Enabling an entry whose flags are all off switches on its own flag only. */
  lemma DisabledAfterEnable(mod: Mod, ms: Members)
    requires Disabled(Obj(ms)) == Obj(ms)
    ensures Disabled(Obj(EnableEntry(mod, ms))) == Obj(Set(EnableEntry(mod, ms), "enabled", Bool(false)))
  {
    KeyFacts();
    var s1 := Set(ms, "name", Str(mod.name));
    var s2 := Set(s1, "path", Str(mod.path));
    DisabledOfSet(ms, "name", Str(mod.name));
    DisabledOfSet(s1, "path", Str(mod.path));
    DisabledOfSet(s2, "enabled", Bool(true));
    SetTwice(s2, "enabled", Bool(true), Bool(false));
  }

  /**
   Exactly the targets are enabled, under the name and path of the mod, and every other flag is off;
   whatever is not a dictionary keeps its place and value, and an entry is appended exactly if there
   was no target.
   */
  lemma EnablesExactlyTheMod(norm: string -> string, mod: Mod, mods: seq<Json>)
    ensures var out := Rewritten(norm, mod, mods);
      && (forall i :: 0 <= i < |mods| ==>
            i < |out| && ProperlyRewritten(norm, mod, mods[i], TargetAfterFirst(norm, mod, mods[i]), out[i]))
      && (if exists e :: e in mods && TargetAfterFirst(norm, mod, e) then |out| == |mods|
          else |out| == |mods| + 1 && out[|mods|] == NewEntry(mod))
    ensures exists e :: e in Rewritten(norm, mod, mods) && IsOn(e)
  {
    var out := Rewritten(norm, mod, mods);
    forall i | 0 <= i < |mods|
      ensures ProperlyRewritten(norm, mod, mods[i], TargetAfterFirst(norm, mod, mods[i]), out[i])
    {
      EntryRewritten(norm, mod, mods[i]);
    }
    if exists e :: e in mods && TargetAfterFirst(norm, mod, e) {
      var i :| 0 <= i < |mods| && TargetAfterFirst(norm, mod, mods[i]);
      assert out[i] in out && IsOn(out[i]);
    } else {
      NewEntryIsOn(mod);
      assert out[|mods|] in out;
    }
  }

  lemma NewEntryIsOn(mod: Mod)
    ensures IsOn(NewEntry(mod))
    ensures Get(NewEntry(mod).members, "name") == Some(Str(mod.name))
    ensures Get(NewEntry(mod).members, "path") == Some(Str(mod.path))
  {
    KeyFacts();
    var ms := NewEntry(mod).members;
    IndexIs(ms, "name", 0);
    IndexIs(ms, "path", 1);
    IndexIs(ms, "enabled", 2);
  }

  // ----- which entries are meant

  /**
   An entry is meant by its path as the file will hold it, compared in normal form: that is the mod's path, or
   something with the mod's suffix behind it. Or it is meant by its name.
   */
  ghost predicate Meant(norm: string -> string, mod: Mod, ms: Members) {
    || (exists p ::
          Get(ms, "path") == Some(Str(p)) && PathMeant(mod, norm(if p == "" then "" else norm(p)), norm(mod.path)))
    || Get(ms, "name") == Some(Str(mod.name))
  }

  ghost predicate PathMeant(mod: Mod, q: string, own: string) {
    q == own || exists front :: q == front + mod.suffix
  }

  lemma SuffixMeant(mod: Mod, q: string, own: string)
    ensures PathMeant(mod, q, own) <==> q == own || EndsWith(q, mod.suffix)
  {
    if EndsWith(q, mod.suffix) {
      assert q == q[..|q| - |mod.suffix|] + mod.suffix;
    }
  }

  lemma TargetsAreMeant(norm: string -> string, mod: Mod, ms: Members)
    ensures TargetAfterFirst(norm, mod, Obj(ms)) <==> Meant(norm, mod, ms)
  {
    AfterFirstPass(norm, ms);
    if PathOf(ms).Some? {
      var p := PathOf(ms).value;
      SuffixMeant(mod, norm(if p == "" then "" else norm(p)), norm(mod.path));
    }
  }

  /** In the list that is written, exactly the entries that are meant are on. */
  lemma OnExactlyIfMeant(norm: string -> string, mod: Mod, mods: seq<Json>, i: nat)
    requires i < |mods|
    ensures i < |Rewritten(norm, mod, mods)|
    ensures IsOn(Rewritten(norm, mod, mods)[i]) <==> mods[i].Obj? && Meant(norm, mod, mods[i].members)
  {
    EntryRewritten(norm, mod, mods[i]);
    if mods[i].Obj? {
      TargetsAreMeant(norm, mod, mods[i].members);
    }
  }

  /** An entry is appended exactly if no entry of the file is meant, and it is on, under the mod's name and path. */
  lemma AppendedUnlessMeant(norm: string -> string, mod: Mod, mods: seq<Json>)
    ensures var out := Rewritten(norm, mod, mods);
      (if exists e: Json :: e in mods && e.Obj? && Meant(norm, mod, e.members) then |out| == |mods|
       else
         && |out| == |mods| + 1
         && out[|mods|] ==
              Obj([Member("name", Str(mod.name)), Member("path", Str(mod.path)), Member("enabled", Bool(true))]))
  {
    forall e: Json | e in mods && e.Obj?
      ensures TargetAfterFirst(norm, mod, e) <==> Meant(norm, mod, e.members)
    {
      TargetsAreMeant(norm, mod, e.members);
    }
  }

  // ----- the ways in, for paths that normalisation leaves alone once it has been applied

  /** By its path. */
  lemma EnabledByPath(norm: string -> string, mod: Mod, mods: seq<Json>, i: nat, p: string)
    requires i < |mods| && mods[i].Obj? && Get(mods[i].members, "path") == Some(Str(p)) && p != ""
    requires norm(norm(p)) == norm(p) == norm(mod.path)
    ensures IsOn(Rewritten(norm, mod, mods)[i])
  {
    OnExactlyIfMeant(norm, mod, mods, i);
  }

  /** By the end of its path, whatever stands in front. */
  lemma EnabledBySuffix(norm: string -> string, mod: Mod, mods: seq<Json>, i: nat, p: string, front: string)
    requires i < |mods| && mods[i].Obj? && Get(mods[i].members, "path") == Some(Str(p)) && p != ""
    requires norm(norm(p)) == norm(p) == front + mod.suffix
    ensures IsOn(Rewritten(norm, mod, mods)[i])
  {
    OnExactlyIfMeant(norm, mod, mods, i);
    assert PathMeant(mod, norm(norm(p)), norm(mod.path));
  }

  /** By its name, whatever its path. */
  lemma EnabledByName(norm: string -> string, mod: Mod, mods: seq<Json>, i: nat)
    requires i < |mods| && mods[i].Obj? && Get(mods[i].members, "name") == Some(Str(mod.name))
    ensures IsOn(Rewritten(norm, mod, mods)[i])
  {
    OnExactlyIfMeant(norm, mod, mods, i);
  }

  /** Any other entry is off, and it stays an entry of its own name and path. */
  lemma DisabledOtherwise(norm: string -> string, mod: Mod, mods: seq<Json>, i: nat, p: string)
    requires i < |mods| && mods[i].Obj? && Get(mods[i].members, "path") == Some(Str(p)) && p != ""
    requires norm(norm(p)) == norm(p) && norm(p) != norm(mod.path)
    requires forall front :: norm(p) != front + mod.suffix
    requires Get(mods[i].members, "name") != Some(Str(mod.name))
    ensures var e := Rewritten(norm, mod, mods)[i];
      e.Obj? && Get(e.members, "enabled") == Some(Bool(false)) && Get(e.members, "path") == Some(Str(norm(p)))
  {
    OnExactlyIfMeant(norm, mod, mods, i);
    EntryRewritten(norm, mod, mods[i]);
    TargetsAreMeant(norm, mod, mods[i].members);
  }
}
