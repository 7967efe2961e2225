/** One section of the configuration as an object whose fields are read one after the other. */
module SectionObject {
  import opened Options
  import opened Toml
  import opened Settings

  /** The switches and numbers of one section. */
  class Section<F(!new, ==)> {
    const layout: Layout<F>
    var on: set<F>
    var num: map<F, int>

    function Value(): Settings<F>
      reads this
    {
      Settings(on, num)
    }

    constructor (layout: Layout<F>, st: Settings<F>)
      ensures this.layout == layout && Value() == st
    {
      this.layout := layout;
      on, num := st.on, st.num;
    }

    /** Reads every field, one after the other; the order of the fields does not matter. */
    method Read(lib: Library, table: Option<Tab>)
      requires Typed(layout, Value())
      modifies this
      ensures Value() == ReadSettings(lib, layout, table, old(Value()))
    {
      if table.None? {
        return;
      }
      var todo := layout.all;
      while todo != {}
        invariant todo <= layout.all
        invariant forall f :: f in on <==>
          if f in todo then f in old(on) else f in ReadSettings(lib, layout, table, old(Value())).on
        invariant num.Keys == old(num).Keys
        invariant forall f :: f in num ==>
          num[f] == if f in todo then old(num)[f] else ReadSettings(lib, layout, table, old(Value())).num[f]
        decreases |todo|
      {
        var f :| f in todo;
        match layout.kind(f) {
          case Switch => ReadSwitch(lib, table.value, f);
          case Number(_, _) => ReadNumberField(lib, table.value, f);
          case Special(_) =>
        }
        todo := todo - {f};
      }
    }

    method ReadSwitch(lib: Library, t: Tab, f: F)
      modifies `on
      ensures on == if ReadBool(lib, t, layout.row(f).aliases, f in old(on)) then old(on) + {f} else old(on) - {f}
    {
      var v := FindValue(t, layout.row(f).aliases, lib.asBool);
      if v.Some? {
        on := if v.value then on + {f} else on - {f};
      }
    }

    method ReadNumberField(lib: Library, t: Tab, f: F)
      requires layout.kind(f).Number?
      modifies `num
      ensures num ==
        old(num)[f := ReadInt(lib, t, layout.row(f).aliases, Num(old(Value()), f), layout.kind(f).lo,
          layout.kind(f).hi)]
    {
      var v := FindValue(t, layout.row(f).aliases, n => lib.AsNumber(n));
      num := num[f := if v.Some? then Truncate(ClampReal(v.value, layout.kind(f).lo as real, layout.kind(f).hi as real))
                      else if f in num then num[f] else 0];
    }
  }
}
