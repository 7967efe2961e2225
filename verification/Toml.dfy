/**
 The TOML value tree and the alias lookup of source/program/config.cpp.

 Parsing, printing and the conversions of the TOML library are not part of this model: a `Library`
 is any four conversion functions, and `Exact` lists the few conversions the proofs rely on.
 */
module Toml {
  import opened Options

  type Tab = map<string, Node>

  /** A node of the tree; `Opaque` stands for the node types this program never reads. */
  datatype Node =
    | Bool(b: bool)
    | Int(i: int)
    | Float(r: real)
    | Str(s: string)
    | Table(entries: Tab)
    | Opaque

  /** `node->value<T>()` for the four types the program asks for. */
  datatype Library = Library(
    asBool: Node -> Option<bool>,
    asInt: Node -> Option<int>,
    asDouble: Node -> Option<real>,
    asString: Node -> Option<string>)
  {
    /** Per key, a number is first read as a double and then as an integer. */
    function AsNumber(n: Node): Option<real> {
      match asDouble(n)
      case Some(v) => Some(v)
      case None =>
        match asInt(n)
        case Some(i) => Some(i as real)
        case None => None
    }
  }

  /** Integers a double represents exactly. */
  predicate Representable(i: int) {
    -0x20_0000_0000_0000 <= i <= 0x20_0000_0000_0000
  }

  /** Reading a value back as its own type succeeds, and an integer read as a double keeps its value. */
  ghost predicate Exact(lib: Library) {
    && (forall b :: lib.asBool(Bool(b)) == Some(b))
    && (forall s :: lib.asString(Str(s)) == Some(s))
    && (forall r :: lib.asDouble(Float(r)) == Some(r))
    && (forall i :: Representable(i) ==> lib.asInt(Int(i)) == Some(i))
    && (forall i :: Representable(i) ==> lib.asDouble(Int(i)) in {None, Some(i as real)})
  }

  function FindTable(root: Tab, key: string): Option<Tab> {
    if key in root && root[key].Table? then Some(root[key].entries) else None
  }

  /** What one key contributes: its converted value, if the key is there and converts. */
  function Reading<T>(table: Tab, key: string, conv: Node -> Option<T>): Option<T> {
    if key in table then conv(table[key]) else None
  }

  function ReadValue<T>(table: Tab, keys: seq<string>, conv: Node -> Option<T>): Option<T> {
    if keys == [] then None
    else
      match Reading(table, keys[0], conv)
      case Some(v) => Some(v)
      case None => ReadValue(table, keys[1..], conv)
  }

  /** The lookup loop as the program runs it. */
  method FindValue<T>(table: Tab, keys: seq<string>, conv: Node -> Option<T>) returns (r: Option<T>)
    ensures r == ReadValue(table, keys, conv)
  {
    for i := 0 to |keys|
      invariant ReadValue(table, keys, conv) == ReadValue(table, keys[i..], conv)
    {
      if keys[i] in table {
        var v := conv(table[keys[i]]);
        if v.Some? {
          return v;
        }
      }
    }
    return None;
  }

  /** The lookup returns the first alias that converts, falling through the ones that do not. */
  lemma {:induction false} FirstAliasWins<T>(table: Tab, keys: seq<string>, conv: Node -> Option<T>)
    ensures var r := ReadValue(table, keys, conv);
      if r.Some? then
        exists i :: 0 <= i < |keys| && Reading(table, keys[i], conv) == r &&
          forall j :: 0 <= j < i ==> Reading(table, keys[j], conv).None?
      else
        forall j :: 0 <= j < |keys| ==> Reading(table, keys[j], conv).None?
  {
    if keys != [] {
      FirstAliasWins(table, keys[1..], conv);
      var r := ReadValue(table, keys, conv);
      if Reading(table, keys[0], conv).Some? {
        assert Reading(table, keys[0], conv) == r;
      } else if r.Some? {
        var i :| 0 <= i < |keys[1..]| && Reading(table, keys[1..][i], conv) == r &&
          forall j :: 0 <= j < i ==> Reading(table, keys[1..][j], conv).None?;
        assert Reading(table, keys[i + 1], conv) == r;
        forall j | 0 <= j < i + 1 ensures Reading(table, keys[j], conv).None? {
          if j > 0 { assert keys[j] == keys[1..][j - 1]; }
        }
      } else {
        forall j | 0 <= j < |keys| ensures Reading(table, keys[j], conv).None? {
          if j > 0 { assert keys[j] == keys[1..][j - 1]; }
        }
      }
    }
  }

  /** The first converting alias determines the result. */
  lemma {:induction false} FirstAlias<T>(table: Tab, keys: seq<string>, conv: Node -> Option<T>, i: nat)
    requires i < |keys|
    requires Reading(table, keys[i], conv).Some?
    requires forall j :: 0 <= j < i ==> Reading(table, keys[j], conv).None?
    ensures ReadValue(table, keys, conv) == Reading(table, keys[i], conv)
  {
    if i > 0 {
      assert Reading(table, keys[0], conv).None?;
      forall j | 0 <= j < i - 1 ensures Reading(table, keys[1..][j], conv).None? {
        assert keys[1..][j] == keys[j + 1];
      }
      FirstAlias(table, keys[1..], conv, i - 1);
    }
  }

  /** Two tables that agree on every alias give the same reading. */
  lemma {:induction false} SameAliasesSameValue<T>(t: Tab, u: Tab, keys: seq<string>, conv: Node -> Option<T>)
    requires forall k :: k in keys ==> Reading(t, k, conv) == Reading(u, k, conv)
    ensures ReadValue(t, keys, conv) == ReadValue(u, keys, conv)
  {
    if keys != [] {
      assert keys[0] in keys;
      SameAliasesSameValue(t, u, keys[1..], conv);
    }
  }

  /** The table with the value of one key moved to another. */
  function Moved(t: Tab, from: string, to: string): Tab
    requires from in t
  {
    (t - {from})[to := t[from]]
  }

  /** Some alias before place `n` converts. */
  ghost predicate ConvertsBefore<T>(t: Tab, keys: seq<string>, conv: Node -> Option<T>, n: nat) {
    exists a :: 0 <= a < n && a < |keys| && Reading(t, keys[a], conv).Some?
  }

  /**
   The value of alias `i` may move to alias `j`: an earlier alias wins in any case; or the value converts
   and no other one does up to the two places; or it does not, and does not replace the one that wins.
   */
  ghost predicate Movable<T>(t: Tab, keys: seq<string>, conv: Node -> Option<T>, i: nat, j: nat) {
    && i < |keys| && j < |keys| && keys[i] in t
    && (ConvertsBefore(t, keys, conv, if i < j then i else j) ||
        if Reading(t, keys[i], conv).Some? then
          forall a :: 0 <= a < |keys| && (a < i || a < j) && a != i ==> Reading(t, keys[a], conv).None?
        else
          Reading(t, keys[j], conv).None? || ConvertsBefore(t, keys, conv, j))
  }

  /** Where nothing converts in front, the lookup goes on behind. */
  lemma {:induction false} ReadBehind<T>(t: Tab, keys: seq<string>, conv: Node -> Option<T>, n: nat)
    requires n <= |keys|
    ensures ConvertsBefore(t, keys, conv, n) ==> ReadValue(t, keys, conv) == ReadValue(t, keys[..n], conv)
    ensures !ConvertsBefore(t, keys, conv, n) ==> ReadValue(t, keys, conv) == ReadValue(t, keys[n..], conv)
  {
    if n > 0 {
      var rest := keys[1..];
      assert forall a :: 0 <= a < |rest| ==> rest[a] == keys[a + 1];
      ReadBehind(t, rest, conv, n - 1);
      assert keys[..n][1..] == rest[..n - 1] && keys[n..] == rest[n - 1..];
      if Reading(t, keys[0], conv).None? {
        assert ConvertsBefore(t, keys, conv, n) <==> ConvertsBefore(t, rest, conv, n - 1) by {
          if a :| 0 <= a < n && a < |keys| && Reading(t, keys[a], conv).Some? {
            assert Reading(t, rest[a - 1], conv).Some?;
          }
          if a :| 0 <= a < n - 1 && a < |rest| && Reading(t, rest[a], conv).Some? {
            assert Reading(t, keys[a + 1], conv).Some?;
          }
        }
      }
    }
  }

  /** A movable value may be moved: the lookup gives the same. */
  lemma RenamedAlias<T>(t: Tab, keys: seq<string>, conv: Node -> Option<T>, i: nat, j: nat)
    requires forall a, b :: 0 <= a < b < |keys| ==> keys[a] != keys[b]
    requires Movable(t, keys, conv, i, j)
    ensures ReadValue(Moved(t, keys[i], keys[j]), keys, conv) == ReadValue(t, keys, conv)
  {
    var u := Moved(t, keys[i], keys[j]);
    var least := if i < j then i else j;
    assert Reading(u, keys[j], conv) == Reading(t, keys[i], conv);
    if ConvertsBefore(t, keys, conv, least) {
      SamePrefix(t, u, keys, conv, least);
    } else if Reading(t, keys[i], conv).Some? {
      FirstAlias(t, keys, conv, i);
      forall a | 0 <= a < j ensures Reading(u, keys[a], conv).None? {
        assert keys[a] != keys[j];
      }
      FirstAlias(u, keys, conv, j);
    } else if Reading(t, keys[j], conv).None? {
      forall k | k in keys ensures Reading(t, k, conv) == Reading(u, k, conv) {
      }
      SameAliasesSameValue(t, u, keys, conv);
    } else {
      SamePrefix(t, u, keys, conv, j);
    }
  }

  /** Tables that read alike in front, where something converts, read alike as a whole. */
  lemma SamePrefix<T>(t: Tab, u: Tab, keys: seq<string>, conv: Node -> Option<T>, n: nat)
    requires n <= |keys| && ConvertsBefore(t, keys, conv, n)
    requires forall a :: 0 <= a < n ==> Reading(t, keys[a], conv) == Reading(u, keys[a], conv)
    ensures ReadValue(t, keys, conv) == ReadValue(u, keys, conv)
  {
    var a :| 0 <= a < n && a < |keys| && Reading(t, keys[a], conv).Some?;
    assert Reading(u, keys[a], conv).Some?;
    ReadBehind(t, keys, conv, n);
    ReadBehind(u, keys, conv, n);
    SameAliasesSameValue(t, u, keys[..n], conv);
  }

  /** The condition is exact: where no two aliases give the same, moving any other value changes the reading. */
  lemma MovableIsExact<T>(t: Tab, keys: seq<string>, conv: Node -> Option<T>, i: nat, j: nat)
    requires forall a, b :: 0 <= a < b < |keys| ==> keys[a] != keys[b]
    requires i < |keys| && j < |keys| && keys[i] in t
    requires forall a, b :: 0 <= a < b < |keys| && Reading(t, keys[a], conv).Some? ==>
      Reading(t, keys[a], conv) != Reading(t, keys[b], conv)
    ensures ReadValue(Moved(t, keys[i], keys[j]), keys, conv) == ReadValue(t, keys, conv) <==>
      Movable(t, keys, conv, i, j)
  {
    if Movable(t, keys, conv, i, j) {
      RenamedAlias(t, keys, conv, i, j);
    } else {
      UnmovableChanges(t, keys, conv, i, j);
    }
  }

  lemma UnmovableChanges<T>(t: Tab, keys: seq<string>, conv: Node -> Option<T>, i: nat, j: nat)
    requires forall a, b :: 0 <= a < b < |keys| ==> keys[a] != keys[b]
    requires i < |keys| && j < |keys| && keys[i] in t
    requires forall a, b :: 0 <= a < b < |keys| && Reading(t, keys[a], conv).Some? ==>
      Reading(t, keys[a], conv) != Reading(t, keys[b], conv)
    requires !Movable(t, keys, conv, i, j)
    ensures ReadValue(Moved(t, keys[i], keys[j]), keys, conv) != ReadValue(t, keys, conv)
  {
    var u := Moved(t, keys[i], keys[j]);
    assert forall a :: 0 <= a < |keys| && a != i && a != j ==> Reading(u, keys[a], conv) == Reading(t, keys[a], conv);
    assert Reading(u, keys[j], conv) == Reading(t, keys[i], conv);
    FirstAliasWins(t, keys, conv);
    FirstAliasWins(u, keys, conv);
    if Reading(t, keys[i], conv).Some? {
      var a :| 0 <= a < |keys| && (a < i || a < j) && a != i && Reading(t, keys[a], conv).Some?;
      if i < j {
        FirstAlias(t, keys, conv, i);
        assert Reading(u, keys[a], conv).Some? && Reading(u, keys[i], conv).None?;
      } else {
        FirstAlias(u, keys, conv, j);
      }
    } else {
      FirstAlias(t, keys, conv, j);
    }
  }
}
