/** JSON values as Python reads them: objects are dictionaries that remember the order of their keys. */
module Json {
  import opened Options
  import opened Spelling

  datatype Member = Member(key: string, value: Json)

  datatype Json =
    | Null
    | Bool(b: bool)
    | Number(text: string)
    | Str(s: string)
    | Arr(items: seq<Json>)
    | Obj(members: seq<Member>)

  type Members = seq<Member>

  /** The place of a key, or the length if the key is missing. */
  function IndexOf(ms: Members, key: string): (i: nat)
    ensures i <= |ms|
    ensures i < |ms| ==> ms[i].key == key
    ensures forall j :: 0 <= j < i ==> ms[j].key != key
  {
    if ms == [] then 0 else if ms[0].key == key then 0 else 1 + IndexOf(ms[1..], key)
  }

  function Get(ms: Members, key: string): Option<Json> {
    var i := IndexOf(ms, key);
    if i < |ms| then Some(ms[i].value) else None
  }

  /** Assignment to a key: in place if it is there, at the end if not. */
  function Set(ms: Members, key: string, value: Json): Members {
    var i := IndexOf(ms, key);
    if i < |ms| then ms[i := Member(key, value)] else ms + [Member(key, value)]
  }

  /** The index of a key is fixed by where it first occurs. */
  lemma IndexIs(ms: Members, key: string, i: nat)
    requires i <= |ms|
    requires i < |ms| ==> ms[i].key == key
    requires forall j :: 0 <= j < i ==> ms[j].key != key
    ensures IndexOf(ms, key) == i
  {
  }

  lemma IndexAfterSet(ms: Members, key: string, value: Json, other: string)
    ensures IndexOf(Set(ms, key, value), other) ==
      if other == key then IndexOf(ms, key)
      else if IndexOf(ms, other) == |ms| then |Set(ms, key, value)| else IndexOf(ms, other)
  {
    var r := Set(ms, key, value);
    var i := IndexOf(ms, other);
    if other == key || i < |ms| {
      IndexIs(r, other, i);
    } else {
      IndexIs(r, other, |r|);
    }
  }

  lemma GetAfterSet(ms: Members, key: string, value: Json, other: string)
    ensures Get(Set(ms, key, value), other) == if other == key then Some(value) else Get(ms, other)
  {
    IndexAfterSet(ms, key, value, other);
  }

  ghost predicate SameKeys(ms: Members, ns: Members) {
    |ms| == |ns| && forall i :: 0 <= i < |ms| ==> ms[i].key == ns[i].key
  }

  /** Assignment to a key that is present changes the value at its place and nothing else. */
  lemma SetAt(ms: Members, ns: Members, key: string, value: Json)
    requires SameKeys(ms, ns) && IndexOf(ms, key) < |ms|
    ensures Set(ns, key, value) == ns[IndexOf(ms, key) := Member(key, value)]
    ensures SameKeys(ms, Set(ns, key, value))
  {
  }

  /** Assigning what a key already holds changes nothing. */
  lemma SetSame(ms: Members, key: string, value: Json)
    requires Get(ms, key) == Some(value)
    ensures Set(ms, key, value) == ms
  {
  }

  lemma SetTwice(ms: Members, key: string, v: Json, w: Json)
    ensures Set(Set(ms, key, v), key, w) == Set(ms, key, w)
  {
  }

  function ToLower(s: string): string {
    seq(|s|, i requires 0 <= i < |s| => Lower(s[i]))
  }
}
