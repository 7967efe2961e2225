/**
 Reading and writing one section of the configuration.

 A section is described by a layout: for every field the canonical key it is written under, the
 aliases it is read from, and how it is read. The round trip is proved here once, for every
 well-formed layout.
 */
module Settings {
  import opened Options
  import opened Toml

  /** What a value is read as. */
  datatype Conversion = ToBool | ToNumber | ToText

  /**
   A switch is a boolean, a number is an integer clamped to bounds. Special fields have readers of their
   own, which try the given conversions in turn.
   */
  datatype Kind = Switch | Number(lo: int, hi: int) | Special(tried: seq<Conversion>) {
    /** The conversions that are tried, each only if the one before it reads nothing. */
    function Conversions(): seq<Conversion> {
      match this
      case Switch => [ToBool]
      case Number(_, _) => [ToNumber]
      case Special(cs) => cs
    }
  }

  /** The aliases are tried in order; the one at `pos` is the canonical key. */
  datatype Row = Row(aliases: seq<string>, pos: nat) {
    function Key(): string {
      if pos < |aliases| then aliases[pos] else ""
    }
  }

  datatype Layout<!F> = Layout(all: set<F>, row: F -> Row, kind: F -> Kind)

  /** The switches that are on and the values of the numbers. */
  datatype Settings<F> = Settings(on: set<F>, num: map<F, int>)

  /** Values of the 32-bit integer fields. */
  predicate Is32Bit(i: int) {
    -0x8000_0000 <= i < 0x1_0000_0000
  }

  ghost predicate Typed<F(!new)>(l: Layout<F>, st: Settings<F>) {
    && (forall f :: f in st.on ==> f in l.all && l.kind(f).Switch?)
    && (forall f :: f in st.num <==> f in l.all && l.kind(f).Number?)
    && (forall f :: f in st.num ==> Is32Bit(st.num[f]))
  }

  /** The aliases tried before the canonical key are not keys under which anything is written. */
  ghost predicate KeyReached<F(!new)>(l: Layout<F>, f: F) {
    && l.row(f).pos < |l.row(f).aliases|
    && forall q, g :: 0 <= q < l.row(f).pos && g in l.all ==> l.row(f).aliases[q] != l.row(g).Key()
  }

  ghost predicate WellFormed<F(!new)>(l: Layout<F>) {
    && (forall f, g :: f in l.all && g in l.all && l.row(f).Key() == l.row(g).Key() ==> f == g)
    && (forall f :: f in l.all ==> KeyReached(l, f))
    && (forall f :: f in l.all && l.kind(f).Number? ==>
          l.kind(f).lo <= l.kind(f).hi && Is32Bit(l.kind(f).lo) && Is32Bit(l.kind(f).hi))
  }

  /** No name stands twice among the aliases of a section. */
  ghost predicate AliasesApart<F(!new)>(l: Layout<F>) {
    forall f, g, i, j ::
      (f in l.all && g in l.all && 0 <= i < |l.row(f).aliases| && 0 <= j < |l.row(g).aliases| &&
       l.row(f).aliases[i] == l.row(g).aliases[j]) ==> (f == g && i == j)
  }

  /** With all aliases apart, keys are distinct and none is hidden behind another field's alias. */
  lemma ApartIsWellFormed<F(!new)>(l: Layout<F>)
    requires AliasesApart(l)
    requires forall f :: f in l.all ==> l.row(f).pos < |l.row(f).aliases|
    requires forall f :: f in l.all && l.kind(f).Number? ==>
               l.kind(f).lo <= l.kind(f).hi && Is32Bit(l.kind(f).lo) && Is32Bit(l.kind(f).hi)
    ensures WellFormed(l)
  {
    forall f | f in l.all ensures KeyReached(l, f) {
      forall q, g | 0 <= q < l.row(f).pos && g in l.all ensures l.row(f).aliases[q] != l.row(g).Key() {
        assert l.row(g).Key() == l.row(g).aliases[l.row(g).pos];
      }
    }
    forall f, g | f in l.all && g in l.all && l.row(f).Key() == l.row(g).Key() ensures f == g {
      assert l.row(f).Key() == l.row(f).aliases[l.row(f).pos] && l.row(g).Key() == l.row(g).aliases[l.row(g).pos];
    }
  }

  // ----- conversions of numbers

  function ClampReal(v: real, lo: real, hi: real): real {
    if v < lo then lo else if hi < v then hi else v
  }

  function ClampInt(v: int, lo: int, hi: int): int {
    if v < lo then lo else if hi < v then hi else v
  }

  /** Conversion of a floating value to an integer drops the fraction. */
  function Truncate(v: real): int {
    if v >= 0.0 then v.Floor else -((-v).Floor)
  }

  function ReadNumber(lib: Library, t: Tab, keys: seq<string>): Option<real> {
    ReadValue(t, keys, n => lib.AsNumber(n))
  }

  function ReadBool(lib: Library, t: Tab, keys: seq<string>, fallback: bool): bool {
    ReadValue(t, keys, lib.asBool).GetOr(fallback)
  }

  function ReadInt(lib: Library, t: Tab, keys: seq<string>, fallback: int, lo: int, hi: int): int {
    match ReadNumber(lib, t, keys)
    case None => fallback
    case Some(v) => Truncate(ClampReal(v, lo as real, hi as real))
  }

  function ReadDouble(lib: Library, t: Tab, keys: seq<string>, fallback: real, lo: real, hi: real): real {
    match ReadNumber(lib, t, keys)
    case None => fallback
    case Some(v) => ClampReal(v, lo, hi)
  }

  lemma TruncateInBounds(v: real, lo: int, hi: int)
    requires lo <= hi
    ensures lo <= Truncate(ClampReal(v, lo as real, hi as real)) <= hi
  {
  }

  // ----- one section

  /** The value of a number. */
  function Num<F(!new)>(st: Settings<F>, f: F): int {
    if f in st.num then st.num[f] else 0
  }

  function ReadSettings<F(!new)>(lib: Library, l: Layout<F>, table: Option<Tab>, st: Settings<F>): Settings<F> {
    match table
    case None => st
    case Some(t) =>
      Settings(
        set f | f in l.all && l.kind(f).Switch? && ReadBool(lib, t, l.row(f).aliases, f in st.on),
        map f | f in l.all && l.kind(f).Number? ::
          ReadInt(lib, t, l.row(f).aliases, Num(st, f), l.kind(f).lo, l.kind(f).hi))
  }

  predicate IsWritten<F(!new)>(l: Layout<F>, special: map<F, Node>, f: F) {
    f in l.all && (l.kind(f).Special? ==> f in special)
  }

  function NodeOf<F(!new)>(l: Layout<F>, st: Settings<F>, special: map<F, Node>, f: F): Node
    requires IsWritten(l, special, f)
  {
    match l.kind(f)
    case Switch => Bool(f in st.on)
    case Number(_, _) => Int(Num(st, f))
    case Special(_) => special[f]
  }

  /** The table a section is written as. */
  function Written<F(!new)>(l: Layout<F>, st: Settings<F>, special: map<F, Node>): Tab
    requires WellFormed(l)
  {
    map f | f in l.all && IsWritten(l, special, f) :: l.row(f).Key() := NodeOf(l, st, special, f)
  }

  /** What survives of a section: the switches as they are, every number clamped to its bounds. */
  function Clamped<F(!new)>(l: Layout<F>, st: Settings<F>): Settings<F> {
    Settings(st.on, map f | f in st.num && l.kind(f).Number? :: ClampInt(st.num[f], l.kind(f).lo, l.kind(f).hi))
  }

  // ----- the round trip

  lemma TruncateClamped(i: int, lo: int, hi: int)
    requires lo <= hi
    ensures Truncate(ClampReal(i as real, lo as real, hi as real)) == ClampInt(i, lo, hi)
  {
  }

  /** Reading keeps a section typed. */
  lemma ReadSettingsTyped<F(!new)>(lib: Library, l: Layout<F>, table: Option<Tab>, st: Settings<F>)
    requires WellFormed(l) && Typed(l, st)
    ensures Typed(l, ReadSettings(lib, l, table, st))
  {
  }

  /** A written field is read back from its canonical key, through all its aliases. */
  lemma ReadWrittenField<F(!new), T>(l: Layout<F>, st: Settings<F>, special: map<F, Node>, f: F,
      conv: Node -> Option<T>)
    requires WellFormed(l) && Typed(l, st)
    requires IsWritten(l, special, f)
    requires conv(NodeOf(l, st, special, f)).Some?
    ensures ReadValue(Written(l, st, special), l.row(f).aliases, conv) == conv(NodeOf(l, st, special, f))
  {
    var t := Written(l, st, special);
    assert KeyReached(l, f);
    var p := l.row(f).pos;
    var keys := l.row(f).aliases;
    assert l.row(f).Key() in t;
    forall q | 0 <= q < p ensures Reading(t, keys[q], conv).None? {
      assert keys[q] !in t;
    }
    FirstAlias(t, keys, conv, p);
  }

  /** A field that is not written is not read either, if none of its aliases is another field's key. */
  lemma {:induction false} ReadUnwritten<T>(t: Tab, keys: seq<string>, conv: Node -> Option<T>)
    requires forall k :: k in keys ==> k !in t
    ensures ReadValue(t, keys, conv).None?
  {
    if keys != [] {
      assert keys[0] in keys;
      ReadUnwritten(t, keys[1..], conv);
    }
  }

  /** A written number is read back clamped. */
  lemma ReadWrittenNumber<F(!new)>(lib: Library, l: Layout<F>, st: Settings<F>, special: map<F, Node>, f: F,
      fallback: int)
    requires Exact(lib)
    requires WellFormed(l) && Typed(l, st)
    requires f in l.all && l.kind(f).Number?
    ensures ReadInt(lib, Written(l, st, special), l.row(f).aliases, fallback, l.kind(f).lo, l.kind(f).hi)
         == ClampInt(st.num[f], l.kind(f).lo, l.kind(f).hi)
  {
    var conv := n => lib.AsNumber(n);
    var i := st.num[f];
    assert lib.asDouble(Int(i)) in {None, Some(i as real)} && lib.asInt(Int(i)) == Some(i);
    assert conv(Int(i)) == Some(i as real);
    ReadWrittenField(l, st, special, f, conv);
    TruncateClamped(i, l.kind(f).lo, l.kind(f).hi);
  }

  /** Writing a section and reading it back over any other state of the section clamps it. */
  lemma ReadWritten<F(!new)>(lib: Library, l: Layout<F>, st: Settings<F>, special: map<F, Node>, over: Settings<F>)
    requires Exact(lib)
    requires WellFormed(l) && Typed(l, st) && Typed(l, over)
    ensures ReadSettings(lib, l, Some(Written(l, st, special)), over) == Clamped(l, st)
  {
    var r := ReadSettings(lib, l, Some(Written(l, st, special)), over);
    forall f | f in l.all && l.kind(f).Switch? ensures f in r.on <==> f in st.on {
      ReadWrittenField(l, st, special, f, lib.asBool);
    }
    forall f | f in st.num ensures r.num[f] == Clamped(l, st).num[f] {
      ReadWrittenNumber(lib, l, st, special, f, over.num[f]);
    }
    assert r.on == st.on;
    assert r.num == Clamped(l, st).num;
  }

  /** The switches are read alike whatever the numbers were. */
  lemma SwitchesReadTwice<F(!new)>(lib: Library, l: Layout<F>, t: Tab, st: Settings<F>, once: Settings<F>)
    requires once.on == ReadSettings(lib, l, Some(t), st).on
    ensures ReadSettings(lib, l, Some(t), once).on == once.on
  {
  }

  /** Reading one table twice is reading it once. */
  lemma ReadTwice<F(!new)>(lib: Library, l: Layout<F>, table: Option<Tab>, st: Settings<F>)
    ensures ReadSettings(lib, l, table, ReadSettings(lib, l, table, st)) == ReadSettings(lib, l, table, st)
  {
  }
}
