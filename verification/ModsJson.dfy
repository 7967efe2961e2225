/**
 The rewriting of a mods.json by misc/scripts/ryu_enable_only_mod.py: every enable flag is switched
 off and exactly the entries of one mod are switched on again.
 */
module ModsJson {
  import opened Options
  import opened Json

  // ----- switching flags off

  predicate IsFlagKey(key: string) {
    var lk := ToLower(key);
    lk == "enabled" || lk == "isenabled" || lk == "is_enabled"
  }

  /** A key that reads like a word written in small letters, in whatever case. */
  predicate Reads(key: string, word: string) {
    |key| == |word| && forall i :: 0 <= i < |key| ==>
      key[i] == word[i] || ('A' <= key[i] <= 'Z' && key[i] as int + 32 == word[i] as int)
  }

  lemma ReadsIsLower(key: string, word: string)
    requires forall i :: 0 <= i < |word| ==> !('A' <= word[i] <= 'Z')
    ensures ToLower(key) == word <==> Reads(key, word)
  {
    if ToLower(key) == word {
      forall i | 0 <= i < |key|
        ensures key[i] == word[i] || ('A' <= key[i] <= 'Z' && key[i] as int + 32 == word[i] as int)
      {
        assert ToLower(key)[i] == word[i];
      }
    }
  }

  /** Exactly three words name a flag. */
  lemma FlagWords(key: string)
    ensures IsFlagKey(key) <==> Reads(key, "enabled") || Reads(key, "isenabled") || Reads(key, "is_enabled")
  {
    ReadsIsLower(key, "enabled");
    ReadsIsLower(key, "isenabled");
    ReadsIsLower(key, "is_enabled");
  }

  /** `disable_enabled_flags` on the object it is given; anything but an object is left alone. */
  function Disabled(j: Json): Json
    decreases j, 0
  {
    match j
    case Obj(ms) => Obj(seq(|ms|, i requires 0 <= i < |ms| => DisabledMember(ms[i])))
    case _ => j
  }

  function DisabledMember(m: Member): Member
    decreases m, 0
  {
    Member(m.key, if IsFlagKey(m.key) then Bool(false) else DisabledBelow(m.value))
  }

  /** A value under a key that names no flag: objects are entered, and the objects in a list. */
  function DisabledBelow(v: Json): Json
    decreases v, 1
  {
    match v
    case Obj(_) => Disabled(v)
    case Arr(items) => Arr(seq(|items|, i requires 0 <= i < |items| => Disabled(items[i])))
    case _ => v
  }

  function DisabledMembers(ms: Members): (r: Members)
    ensures |r| == |ms| && forall i :: 0 <= i < |ms| ==> r[i] == DisabledMember(ms[i])
  {
    Disabled(Obj(ms)).members
  }

  /** The script's two loops over one dictionary: first the flags, then everything below. */
  method DisableEnabledFlags(obj: Json) returns (r: Json)
    ensures r == Disabled(obj)
    decreases obj
  {
    if !obj.Obj? {
      return obj;
    }
    var ms := obj.members;
    for i := 0 to |ms|
      invariant |ms| == |obj.members|
      invariant forall j :: 0 <= j < i ==>
        ms[j] == if IsFlagKey(obj.members[j].key) then Member(obj.members[j].key, Bool(false)) else obj.members[j]
      invariant forall j :: i <= j < |ms| ==> ms[j] == obj.members[j]
    {
      if IsFlagKey(ms[i].key) {
        ms := ms[i := Member(ms[i].key, Bool(false))];
      }
    }
    ghost var flagged := ms;
    for i := 0 to |ms|
      invariant |ms| == |flagged|
      invariant forall j :: 0 <= j < i ==> ms[j] == DisabledMember(obj.members[j])
      invariant forall j :: i <= j < |ms| ==> ms[j] == flagged[j]
    {
      var v := ms[i].value;
      if v.Obj? {
        assert v == obj.members[i].value;
        var w := DisableEnabledFlags(v);
        ms := ms[i := Member(ms[i].key, w)];
        assert ms[i] == DisabledMember(obj.members[i]);
      } else if v.Arr? {
        assert v == obj.members[i].value;
        var items := v.items;
        for k := 0 to |items|
          invariant |items| == |v.items|
          invariant forall j :: 0 <= j < k ==> items[j] == Disabled(v.items[j])
          invariant forall j :: k <= j < |items| ==> items[j] == v.items[j]
        {
          var item := DisableEnabledFlags(v.items[k]);
          items := items[k := item];
        }
        assert items == DisabledBelow(v).items;
        ms := ms[i := Member(ms[i].key, Arr(items))];
        assert ms[i] == DisabledMember(obj.members[i]);
      } else {
        assert ms[i] == DisabledMember(obj.members[i]);
      }
    }
    r := Obj(ms);
  }

  // ----- what it does, dictionary by dictionary

  /** A step down from a dictionary: to a dictionary under a key, or to one in a list under a key. */
  datatype Hop = Below(i: nat) | InList(i: nat, k: nat)

  /** The dictionary reached by some hops; keys that name a flag and lists directly inside lists are not entered. */
  function DictAt(j: Json, hops: seq<Hop>): Option<Members>
    decreases hops
  {
    if !j.Obj? then None
    else if hops == [] then Some(j.members)
    else
      var i := hops[0].i;
      if i >= |j.members| || IsFlagKey(j.members[i].key) then None
      else
        var v := j.members[i].value;
        match hops[0]
        case Below(_) => DictAt(v, hops[1..])
        case InList(_, k) => if v.Arr? && k < |v.items| then DictAt(v.items[k], hops[1..]) else None
  }

  /** How one value may differ after the flags below it are off: dictionaries may, nothing else. */
  ghost predicate SameButDicts(v: Json, w: Json) {
    match v
    case Obj(_) => w.Obj?
    case Arr(items) =>
      w.Arr? && |w.items| == |items| && forall k :: 0 <= k < |items| ==>
        (items[k].Obj? && w.items[k].Obj?) || w.items[k] == items[k]
    case _ => w == v
  }

  /** One dictionary before and after: same keys in the same order, flags false, the rest untouched. */
  ghost predicate FlagsOff(before: Members, after: Members) {
    && |after| == |before|
    && forall i :: 0 <= i < |before| ==>
      after[i].key == before[i].key &&
      if IsFlagKey(before[i].key) then after[i].value == Bool(false) else SameButDicts(before[i].value, after[i].value)
  }

  lemma OneDictionary(j: Json)
    requires j.Obj?
    ensures FlagsOff(j.members, Disabled(j).members)
  {
    forall i | 0 <= i < |j.members| ensures var v := j.members[i].value; SameButDicts(v, DisabledBelow(v)) {
    }
  }

  /** In every dictionary that can be reached, exactly the flags are changed, and all of them are off. */
  lemma {:induction false} DisabledEverywhere(j: Json, hops: seq<Hop>)
    ensures DictAt(Disabled(j), hops).Some? <==> DictAt(j, hops).Some?
    ensures DictAt(j, hops).Some? ==> FlagsOff(DictAt(j, hops).value, DictAt(Disabled(j), hops).value)
    decreases hops
  {
    if j.Obj? && hops == [] {
      OneDictionary(j);
    } else if j.Obj? && hops[0].i < |j.members| && !IsFlagKey(j.members[hops[0].i].key) {
      var v := j.members[hops[0].i].value;
      assert Disabled(j).members[hops[0].i].value == DisabledBelow(v);
      if hops[0].Below? {
        DisabledEverywhere(v, hops[1..]);
      } else if v.Arr? && hops[0].k < |v.items| {
        DisabledEverywhere(v.items[hops[0].k], hops[1..]);
      }
    }
  }

  /** Switching off twice is switching off once. */
  lemma {:induction false} DisabledTwice(j: Json)
    ensures Disabled(Disabled(j)) == Disabled(j)
    decreases j, 0
  {
    if j.Obj? {
      forall i | 0 <= i < |j.members|
        ensures DisabledMember(DisabledMember(j.members[i])) == DisabledMember(j.members[i])
      {
        DisabledMemberTwice(j.members[i]);
      }
      assert Disabled(Disabled(j)).members == Disabled(j).members;
    }
  }

  lemma {:induction false} DisabledMemberTwice(m: Member)
    ensures DisabledMember(DisabledMember(m)) == DisabledMember(m)
    decreases m, 0
  {
    if m.value.Obj? {
      DisabledTwice(m.value);
    } else if m.value.Arr? {
      var items := m.value.items;
      forall i | 0 <= i < |items| ensures Disabled(Disabled(items[i])) == Disabled(items[i]) {
        DisabledTwice(items[i]);
      }
      assert DisabledBelow(DisabledBelow(m.value)).items == DisabledBelow(m.value).items;
    }
  }
}
