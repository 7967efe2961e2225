/** `PatchConfig` as the object the program updates in place. */
module PatchConfigObject {
  import opened Toml
  import opened PatchConfigs
  import opened ConfigFixpoint
  import opened ConfigRules
  import opened ConfigFollows
  import opened ConfigWritten
  import opened SchemaObject
  import opened GameObject

  class PatchConfig {
    var initialized: bool
    var defaultsOnly: bool
    const game: GameSettings
    const schema: SchemaSettings

    ghost function Parts(): set<object> {
      {this} + game.Parts() + schema.Parts()
    }

    ghost predicate Laid() {
      game.Laid() && schema.Laid() && game.Parts() !! schema.Parts() && this !in game.Parts() + schema.Parts()
    }

    /** Every section has its layout and every field a value of its type. */
    ghost predicate Valid()
      reads Parts()
    {
      Laid() && WellTyped(Value())
    }

    function Value(): Config
      reads Parts()
    {
      Whole(initialized, defaultsOnly, game.Value(), schema.Value())
    }

    constructor ()
      ensures fresh(Parts())
      ensures Laid() && Value() == Defaults()
    {
      initialized, defaultsOnly := false, true;
      game := new GameSettings();
      schema := new SchemaSettings();
    }

    /** The schema half; the other half is not touched. */
    method ApplySchema(lib: Library, devMem: bool, t: Sections)
      requires Laid() && schema.Valid()
      modifies schema.Parts()
      ensures schema.Value() == AppliedSchema(lib, devMem, old(schema.Value()), t)
      ensures game.Value() == old(game.Value())
    {
      schema.Apply(lib, devMem, t);
    }

    method ApplyGame(lib: Library, t: Sections)
      requires Laid() && game.Valid()
      modifies game.Parts()
      ensures game.Value() == AppliedGame(lib, old(game.Value()), t)
      ensures schema.Value() == old(schema.Value())
    {
      game.Apply(lib, t);
    }

    /** The `PatchConfig::ApplyTable` body on the sections it finds: the schema first. */
    method ApplySections(lib: Library, devMem: bool, t: Sections)
      requires Laid() && game.Valid() && schema.Valid()
      modifies Parts()
      ensures game.Value() == AppliedGame(lib, old(game.Value()), t)
      ensures schema.Value() == AppliedSchema(lib, devMem, old(schema.Value()), t)
    {
      ApplySchema(lib, devMem, t);
      ApplyGame(lib, t);
    }

    /** The configuration is not the built-in one any more. */
    method MarkLoaded()
      requires Laid()
      modifies `initialized, `defaultsOnly
      ensures initialized && !defaultsOnly
      ensures game.Value() == old(game.Value()) && schema.Value() == old(schema.Value())
    {
      initialized := true;
      defaultsOnly := false;
    }

    method ApplyRoot(lib: Library, devMem: bool, root: Tab)
      requires Valid()
      modifies Parts()
      ensures Valid()
      ensures Value() == Applied(lib, devMem, old(Value()), root)
    {
      ghost var c := Value();
      ApplySections(lib, devMem, SectionsOf(root));
      MarkLoaded();
      AppliedWellTyped(lib, devMem, c, root);
    }

    /** What the file makes of this object, by the function and by the rules. */
    method ApplyTable(lib: Library, devMem: bool, root: Tab)
      requires Valid()
      modifies Parts()
      ensures Valid()
      ensures Value() == Applied(lib, devMem, old(Value()), root)
      ensures Follows(lib, devMem, root, old(Value()), Value())
    {
      ghost var c := Value();
      ApplyRoot(lib, devMem, root);
      AppliedFollows(lib, devMem, root, c);
    }

    /** `NormalizePatchConfig`: a fresh object, filled from the tree this one is written as. */
    method NormalizePatchConfig(lib: Library, devMem: bool) returns (out: PatchConfig)
      ensures fresh(out.Parts())
      ensures out.Valid() && out.Value() == Normalize(lib, devMem, Value())
    {
      var root := BuildTable(Value());
      out := FromTable(lib, devMem, root);
    }

    /** The tree `SavePatchConfigToPath` formats: the object is normalised first. */
    method TableToSave(lib: Library, devMem: bool) returns (root: Tab)
      ensures root == SavedTable(lib, devMem, Value())
      ensures Shown(Normalize(lib, devMem, Value()), root)
    {
      var normalized := NormalizePatchConfig(lib, devMem);
      root := BuildTable(normalized.Value());
      BuiltTable(normalized.Value());
    }
  }

  /** A default-constructed object to which a tree is applied, as loading and normalising do. */
  method FromTable(lib: Library, devMem: bool, root: Tab) returns (out: PatchConfig)
    ensures fresh(out.Parts())
    ensures out.Valid() && out.Value() == Applied(lib, devMem, Defaults(), root)
  {
    DefaultsWellTyped();
    out := new PatchConfig();
    out.ApplyTable(lib, devMem, root);
  }
}
