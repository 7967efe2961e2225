/** The settings read by the schema table of source/program/config_schema.cpp, updated in place. */
module SchemaObject {
  import opened Options
  import opened Toml
  import opened Settings
  import opened ConfigLayouts
  import opened PatchConfigs
  import opened SectionObject

  class SchemaSettings {
    const overlays: Section<OverlaysField>
    const gui: Section<GuiField>
    var language: string
    const debug: Section<DebugField>
    const resolution: Section<ResolutionField>
    var outputTarget: int
    var handheldScale: real
    var minScale: real
    var maxScale: real
    var clampTexture: int

    ghost function Parts(): set<object> {
      {this, overlays, gui, debug, resolution}
    }

    ghost predicate Laid() {
      overlays.layout == OVERLAYS && gui.layout == GUI && debug.layout == DEBUG && resolution.layout == RESOLUTION
    }

    /** Every section has its layout and every field a value of its type. */
    ghost predicate Valid()
      reads Parts()
    {
      Laid() && SchemaTyped(Value())
    }

    function Value(): SchemaValue
      reads Parts()
    {
      SchemaValue(overlays.Value(), gui.Value(), language, debug.Value(), resolution.Value(),
        Output(outputTarget, handheldScale, minScale, maxScale, clampTexture))
    }

    constructor ()
      ensures fresh(Parts()) && Laid()
      ensures Value() == SchemaValue(OVERLAYS_DEFAULT, GUI_DEFAULT, "", DEBUG_DEFAULT, RESOLUTION_DEFAULT,
        OUTPUT_DEFAULT)
    {
      language := "";
      outputTarget, handheldScale, minScale, maxScale, clampTexture := 1080, 80.0, 85.0, 100.0, 1152;
      overlays := new Section(OVERLAYS, OVERLAYS_DEFAULT);
      gui := new Section(GUI, GUI_DEFAULT);
      debug := new Section(DEBUG, DEBUG_DEFAULT);
      resolution := new Section(RESOLUTION, RESOLUTION_DEFAULT);
    }

    method SetMinResScale(v: real)
      modifies `minScale, `maxScale
      ensures (minScale, maxScale) == SetMinScale(v, old((minScale, maxScale)))
    {
      minScale := ClampReal(v, 10.0, 100.0);
      if maxScale < minScale {
        maxScale := minScale;
      }
    }

    method SetMaxResScale(v: real)
      modifies `minScale, `maxScale
      ensures (minScale, maxScale) == SetMaxScale(v, old((minScale, maxScale)))
    {
      maxScale := ClampReal(v, 10.0, 100.0);
      if maxScale < minScale {
        minScale := maxScale;
      }
    }

    /** The output target: a number, or else a text. */
    method ReadOutputTarget(lib: Library, devMem: bool, t: Tab)
      modifies `outputTarget
      ensures outputTarget == ReadTarget(lib, devMem, t, old(outputTarget))
    {
      var v := FindValue(t, ResolutionRow(OutputTarget).aliases, n => lib.AsNumber(n));
      if v.Some? {
        outputTarget := SetTarget(devMem, Truncate(ClampReal(v.value, 720.0, 2160.0)));
        return;
      }
      var s := FindValue(t, ResolutionRow(OutputTarget).aliases, lib.asString);
      if s.Some? {
        outputTarget := SetTarget(devMem, ParseOutputTarget(s.value, outputTarget));
      }
    }

    method ApplyOutputTable(lib: Library, devMem: bool, t: Tab)
      modifies `outputTarget, `handheldScale, `minScale, `maxScale, `clampTexture
      ensures Output(outputTarget, handheldScale, minScale, maxScale, clampTexture)
           == ApplyOutput(lib, devMem, Some(t),
             old(Output(outputTarget, handheldScale, minScale, maxScale, clampTexture)))
    {
      ReadOutputTarget(lib, devMem, t);
      var handheld := FindValue(t, ResolutionRow(OutputHandheldScale).aliases, n => lib.AsNumber(n));
      if handheld.Some? {
        handheldScale := SetHandheldScale(ClampReal(handheld.value, 0.0, 100.0));
      }
      var lo := FindValue(t, ResolutionRow(MinResScale).aliases, n => lib.AsNumber(n));
      if lo.Some? {
        SetMinResScale(ClampReal(lo.value, 10.0, 100.0));
      }
      var hi := FindValue(t, ResolutionRow(MaxResScale).aliases, n => lib.AsNumber(n));
      if hi.Some? {
        SetMaxResScale(ClampReal(hi.value, 10.0, 100.0));
      }
      var clamp := FindValue(t, ResolutionRow(ClampTextureResolution).aliases, n => lib.AsNumber(n));
      if clamp.Some? {
        clampTexture := SetClampTexture(Truncate(ClampReal(clamp.value, 0.0, 9999.0)));
      }
    }

    /** The entries of the schema table for `overlays`, `gui` and `debug`. */
    method ApplyPanelTables(lib: Library, t: Sections)
      requires Laid() && Typed(OVERLAYS, overlays.Value()) && Typed(GUI, gui.Value()) && Typed(DEBUG, debug.Value())
      modifies overlays, gui, debug, `language
      ensures overlays.Value() == ReadSettings(lib, OVERLAYS, t.overlays, old(overlays.Value()))
      ensures gui.Value() == ReadSettings(lib, GUI, t.gui, old(gui.Value()))
      ensures language == ApplyLanguage(lib, t.gui, old(language))
      ensures debug.Value() == ReadSettings(lib, DEBUG, t.debug, old(debug.Value()))
    {
      overlays.Read(lib, t.overlays);
      gui.Read(lib, t.gui);
      if t.gui.Some? {
        var text := FindValue(t.gui.value, GuiRow(Language).aliases, lib.asString);
        if text.Some? {
          language := text.value;
        }
      }
      debug.Read(lib, t.debug);
    }

    /** The entries of the schema table for `resolution_hack`. */
    method ApplyResolutionTable(lib: Library, devMem: bool, t: Option<Tab>)
      requires Laid() && Typed(RESOLUTION, resolution.Value())
      modifies resolution, `outputTarget, `handheldScale, `minScale, `maxScale, `clampTexture
      ensures resolution.Value() == ReadSettings(lib, RESOLUTION, t, old(resolution.Value()))
      ensures Output(outputTarget, handheldScale, minScale, maxScale, clampTexture)
           == ApplyOutput(lib, devMem, t, old(Output(outputTarget, handheldScale, minScale, maxScale, clampTexture)))
    {
      resolution.Read(lib, t);
      if t.Some? {
        ApplyOutputTable(lib, devMem, t.value);
      }
    }

    /** `ApplyTomlTable`: all entries, in the order of the table. */
    method Apply(lib: Library, devMem: bool, t: Sections)
      requires Valid()
      modifies Parts()
      ensures Value() == AppliedSchema(lib, devMem, old(Value()), t)
    {
      ApplyPanelTables(lib, t);
      ApplyResolutionTable(lib, devMem, t.resolution);
    }
  }
}
