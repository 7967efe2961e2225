# d3hack: a verified model

A Dafny model of the parts of d3hack whose correctness is not obvious from reading one function, with
proofs of what they promise. `dafny verify dfyconfig.toml` checks all of it.

**The configuration** (`Toml`, `Spelling`, `Settings`, `ConfigLayouts`, `LayoutAliases`, `SeasonEvents`,
`PatchConfig`, `ConfigRules`, `ConfigFollows`, `ConfigWritten`, `ConfigRoundTrip`, `ConfigFixpoint`, `ConfigReapply`,
`ConfigKeys`, `SectionObject`, `SchemaObject`, `GameObject`, `PatchConfigObject`).
`PatchConfig::ApplyTable` reads nine TOML sections through alias lists, with clamping, range swapping, enum
parsing, setters that drag one scale along with the other, and a season-to-event-flag map that is applied
last. `BuildPatchConfigTable` writes the tree; `NormalizePatchConfig` writes and reads back. A section is a
*layout*: per field the aliases, the canonical one among them, and how the field is read. One round trip is
proved for every well-formed layout and used for the ten tables of the program, with every field, alias and
bound of the source. `ConfigRules` says without layouts and readers what a file means: for every field of every
section the names it may stand under, its bounds, and that it stays as it was when the file does not give it.
`AppliedExactly` shows that a configuration is what `ApplyTable` computes if and only if it follows these rules;
`ConfigWritten` does the same for the names and values that are written. The reference the round trip is compared with is `CleanOver`, which cleans a
configuration directly and knows nothing of trees, keys or aliases. From it follow idempotence, the exact set
of fixed points, what a saved file restores, exactly when applying a tree twice differs from applying it
once, and when a key may be replaced by another of its aliases, in any section. The object that is updated in place
is the class `PatchConfigObject.PatchConfig`: its sections are objects whose fields are looked up and assigned
one after the other, and its methods are proved against the functions the lemmas speak of.

**Machine arithmetic** (`Words`, `Rotate`, `Flags`, `Memory`, `Align`, `Resolution`). Rotation, carry, borrow
and overflow flags, the multiplication test and the alignment masks at a symbolic word width; the
byte copy on one array, for every placement of the two ranges; the output sizes in exact arithmetic.

**The mods.json rewriter** (`Json`, `ModsJson`, `ModsRewrite`, `ModsRerun`). The recursive switching-off of
enable flags, the two passes over the list, and exactly when running the script again changes nothing.

**Build and import tools** (`CEscape`, `Decimals`, `Importer`, `ImportPlan`). The string escaper against a reader of C
string literals; the import plan, file by file and name by name, and its step-by-step execution against a simultaneous
assignment.

**The atomic write** (`AtomicWrite`). `WriteAllAtomic` on a disk that refuses any set of its operations: the steps the
program takes, a method proved to take exactly these, when a save succeeds and what it leaves, and what is on the disk
after any number of writes cut short at any step.

Where the repository says one thing and does another, the code is followed:

- The header (`source/program/fs_util.hpp:13-17`) lists four steps; the body in `source/program/fs_util.cpp`
  also handles every failure and puts the backup back. The body is modelled.
- The write is called atomic, but loading reads only the config path and never the backup. Saving over an existing
  file can leave none, after a crash between the two renames or a failed write that cannot put the file back; loading
  then takes the defaults, though `.bak` has the complete old text (`CrashBetweenRenames`, `FailedWriteLeavesNoFile`).
  A backup left that way can come back: if the next save cannot rename its text into place, it puts the stale backup
  there, and loading sees neither the defaults it saw before nor the new text (`BackupIsBroughtBack`).
  `LoadIsSafeExactly` states on which disks loading sees the same as before or the new text, wherever the save is cut
  short: exactly those without a file and without a backup of another text.
- The comment above `saturated_mul` promises a saturated product, but the function returns `bool`.
- Every season map also switches `DarkAlchemy` on, because its map default is `true`; the README of the
  repository speaks of the season's theme only.
- Applying a table twice is applying it once unless the table gives one end of the rift range only and that
  end crosses the other: `ApplyTwice` states exactly when, `ApplyTwiceCounterexample` gives a file.
- `ALIGN_UP` near the end of the address space wraps around to zero: `AlignUpIsCeiling` states exactly when.
- Path normalisation is not idempotent on every string, so a second run of the mods script can change its own
  output: `RewriteTwice` states exactly when, `UnstablePathExample` gives a list.
- The importer meets its own results when a directory is imported into itself. It stops with an error exactly if
  a file is planned onto itself (`DefaultImportStops`, `SameDirectoryExample`). It mixes files up without any
  error if a name is taken before the file that has it was brought away (`SameDirectoryMixesUp`). Otherwise it is the
  simultaneous assignment: `DefaultImport` states exactly when.
- The README of the repository names the rift files `challengerift_00.dat`; the script writes `challengerift_0.dat`.
- The three-argument flag templates call `__CFSUB` and `__OFSUB`, which do not exist; they are read as the
  two-argument templates at the width of the operands. They are right for a second operand at least as wide as the
  first. For a narrower one, signed or unsigned, four lemmas say exactly when they are right, and so do
  `BorrowUnderPromotion` and `OverflowUnderPromotion` if the inner sum is kept at the promoted width instead.
- The string escaper leaves `??` alone. A compiler that replaces trigraphs, as the C standard asks and C++ before
  C++17, reads the literal as the original exactly if that has no trigraph: `ReadWithTrigraphs`.

## Model

| member | source | states |
|---|---|---|
| `Toml.FindValue` | source/program/config.cpp:30-44 | the lookup loop returns what the recursive reading of the alias list gives |
| `Toml.FirstAliasWins` | source/program/config.cpp:30-44 | the result is that of the first alias that is present and converts, falling through wrong-typed ones; nothing is returned only if none converts |
| `Toml.FirstAlias` | source/program/config.cpp:30-44 | the first converting alias alone determines the result |
| `Toml.SameAliasesSameValue` | source/program/config.cpp:30-44 | no key outside the alias list has any influence |
| `Toml.RenamedAlias` | source/program/config.cpp:30-44 | for any conversion a value may be moved to another alias if an earlier alias wins anyway, or it converts and no other does up to the two places, or it does not and replaces no winner |
| `Toml.MovableIsExact` | source/program/config.cpp:30-44 | that condition is exact: where no two aliases give the same, any other move changes the reading |
| `Spelling.NormalizeKeyLoop` | source/program/config.cpp:113-123 | the loop over the characters gives the recursive normal form |
| `Spelling.NormalizeConcat` | source/program/config.cpp:113-123 | normalisation distributes over concatenation |
| `Spelling.FirstCharacter` | source/program/config.cpp:113-123 | eight separators contribute nothing, a capital letter its small one, any other character itself |
| `Spelling.NormalFixedPoints` | source/program/config.cpp:113-123 | results hold no separator and no capital, and exactly such strings are fixed points, so normalisation is idempotent |
| `Spelling.SpellingIsIrrelevant` | source/program/config.cpp:113-136 | inserting separators anywhere and changing case anywhere changes no key, no parsed mode and no parsed rank, for every fallback |
| `Spelling.ParsePrintedMode` | source/program/config.cpp:354-364 | parsing a printed season-map mode gives it back, whatever the fallback |
| `Spelling.ParseCanonicalRank` | source/program/config.cpp:275-297 | parsing the canonical name of a rank gives the rank back, whatever the fallback |
| `Spelling.RankRange` | source/program/config.cpp:275-284 | a text that does not give a rank in 0..2 is unrecognised with every fallback |
| `Settings.TruncateInBounds` | source/program/config.cpp:68-90 | clamping as a double and truncating stays inside integer bounds, negative ones included |
| `Settings.ReadWrittenField` | source/program/config.cpp:366-459 | a field written under its canonical key is what its whole alias list reads, in every well-formed layout |
| `Settings.ReadWrittenNumber` | source/program/config.cpp:56-90 | a written number is read back clamped to its bounds, through the conversion to double |
| `Settings.ReadWritten` | source/program/config.cpp:366-459 | writing any section and reading it back over any other state of it keeps every switch and clamps every number |
| `Settings.ReadSettingsTyped` | source/program/config.cpp:46-90 | whatever the table holds, the fields read stay within their 32-bit types |
| `Settings.ReadTwice` | source/program/config.cpp:463-578 | reading one table twice over a section is reading it once |
| `Settings.ApartIsWellFormed` | source/program/config.cpp:30-44 | if no two aliases of a section are the same, its canonical keys are distinct and none is hidden behind another field's alias |
| `LayoutAliases.AllAliasesApart` | source/program/config.cpp:463-578 | in each of the ten tables of the program no name stands twice, among the aliases of one field or of two |
| `LayoutAliases.LayoutsWellFormed` | source/program/config.cpp:463-578 | in all ten tables of the program canonical keys are distinct and reached first, and bounds are ordered |
| `SeasonEvents.MappedSeasons` | source/program/config.cpp:181-258 | exactly the seasons 14-22 and 24-37 are mapped, always with `DarkAlchemy` |
| `SeasonEvents.FlagBySeason` | source/program/config.cpp:181-258 | for each flag exactly which seasons switch it on |
| `SeasonEvents.FlagAfterMap` | source/program/config.cpp:260-273 | each flag after the map, in each mode: from the map alone, from either, or as it was |
| `SeasonEvents.MapOnlyIgnoresFlags` | README.md:215-221 | in `MapOnly` the flags do not depend on the configured ones, and nothing but the flags changes |
| `SeasonEvents.OverlayIsClosure` | source/program/config.cpp:173-179 | `OverlayConfig` is extensive and monotone, contains the plain map, and adds nothing else |
| `SeasonEvents.SeasonMapIdempotent` | source/program/config.cpp:260-273 | in all modes the map is idempotent, and it is the identity exactly where it does not apply or the flags are already closed under it |
| `PatchConfigs.DefaultsWellTyped` | source/program/config.hpp:31-217 | the built-in defaults hold values of their types |
| `PatchConfigs.ReadTarget` | source/program/config_schema.cpp:336-358 | the output target stays an unsigned 32-bit value whatever the table gives |
| `PatchConfigs.ApplyRank` | source/program/config.cpp:568-570 | the rank value is one of 0, 1, 2 or what it was |
| `PatchConfigs.AppliedWellTyped` | source/program/config.cpp:463-578 | applying any tree keeps every field within its type |
| `ConfigFollows.ReadingIsFirst` | source/program/config.cpp:30-54 | a lookup gives a value exactly if that is the value of the first name that is there and converts, and nothing exactly if none does |
| `ConfigFollows.NumberIsFirst` | source/program/config.cpp:56-66 | the same for numbers, where every name is tried as a double and then as an integer |
| `ConfigFollows.SwitchByReading` | source/program/config.cpp:46-50 | a switch is what the file says, and what it was if the file does not say |
| `ConfigFollows.IntegerByReading` | source/program/config.cpp:68-90 | a number is without its fraction and within its bounds, or what it was |
| `ConfigFollows.RiftsByRule` | source/program/config.cpp:474-481 | the ends of the rift range are the smaller and the larger of the two numbers read |
| `ConfigFollows.ModeByRule` | source/program/config.cpp:125-144 | a text decides the mode by the word it spells; only without any text a boolean does, `true` for `MapOnly` and `false` for `Disabled` |
| `ConfigFollows.RankByRule` | source/program/config.cpp:275-297 | the text, given or old, decides the rank value by the word it spells, and the value the text |
| `ConfigFollows.DigitsByReading` | source/program/config_schema.cpp:53-58 | a text read as an unsigned number is digits, read with the most significant first |
| `ConfigFollows.TargetByRule` | source/program/config_schema.cpp:28-60 | a number is brought within 720 and what the memory allows; without one a text is a name or a number of its own, capped; else the target stays |
| `ConfigFollows.HandheldByRule` | source/program/config_schema.cpp:208-213 | zero or the nearest step of five percent from 40 to 100, with fractions up to one taken as shares; or what it was |
| `ConfigFollows.ScalesByRule` | source/program/config_schema.cpp:215-227 | which of the two scales is kept, clamped or dragged along, by which of them the file gives |
| `ConfigFollows.ClampByRule` | source/program/config_schema.cpp:229-239 | zero below one, else 100 to 9999 without the fraction; or what it was |
| `ConfigFollows.AppliedExactly` | source/program/config.cpp:463-578 | a configuration is what applying the tree to another one gives if and only if it follows the rules of the file: all names, bounds and words written out, every field that the file does not give unchanged, the ends of the range in order, the season map last |
| `ConfigFollows.AppliedFollows` | source/program/config.cpp:463-578 | in particular the result always follows these rules |
| `ConfigWritten.RoundedIsNearest` | source/program/config.cpp:103-105 | a speed is rounded to the nearest tenth, halves away from zero |
| `ConfigWritten.BuiltTable` | source/program/config.cpp:366-459 | the tree that is written has exactly the nine sections, and in them every switch and number under its first name, the special fields under theirs, and nothing else |
| `SectionObject.Section.Read` | source/program/config.cpp:463-578 | walking the fields of a section in any order, looking each up and assigning it in place, gives the section read as a whole, for which `ConfigFollows.AppliedExactly` says what every field becomes, absent ones included |
| `SchemaObject.SchemaSettings.constructor` | source/program/config.hpp:31-217 | a new object holds the defaults of the schema settings |
| `SchemaObject.SchemaSettings.SetMinResScale` | source/program/config_schema.cpp:215-220 | raising the lower scale drags the upper one along |
| `SchemaObject.SchemaSettings.SetMaxResScale` | source/program/config_schema.cpp:222-227 | lowering the upper scale drags the lower one along |
| `SchemaObject.SchemaSettings.ReadOutputTarget` | source/program/config_schema.cpp:336-358 | a number decides the output target, else a text, else it stays |
| `SchemaObject.SchemaSettings.ApplyOutputTable` | source/program/config_schema.cpp:320-380 | the special resolution fields, each looked up and set in the order of the entry table |
| `SchemaObject.SchemaSettings.ApplyPanelTables` | source/program/config_schema.cpp:320-392 | `overlays`, `gui` and `debug` are read field by field, and nothing else changes |
| `SchemaObject.SchemaSettings.ApplyResolutionTable` | source/program/config_schema.cpp:266-274 | `resolution_hack` is read as the schema entries say, and nothing else changes |
| `SchemaObject.SchemaSettings.Apply` | source/program/config_schema.cpp:320-392 | the whole entry table computes the schema half of the specification |
| `GameObject.GameSettings.constructor` | source/program/config.hpp:31-217 | a new object holds the defaults of the other settings |
| `GameObject.GameSettings.ApplyRiftsTable` | source/program/config.cpp:474-481 | the ends of the rift range are read, clamped and swapped when they cross |
| `GameObject.GameSettings.ApplyMapModeTable` | source/program/config.cpp:138-144 | a text decides the season-map mode, and only without one a boolean |
| `GameObject.GameSettings.ApplySpeedTable` | source/program/config.cpp:537-538 | both speeds are read clamped, each over its own old value |
| `GameObject.GameSettings.ApplyRankTable` | source/program/config.cpp:568-570 | the rank text and value are updated together, in three steps |
| `GameObject.GameSettings.ApplySeasonEventMapIfNeeded` | source/program/config.cpp:260-273 | exactly the event flags are replaced or extended, or nothing changes |
| `GameObject.GameSettings.ApplyEventTables` | source/program/config.cpp:467-490 | seasons, rifts, mode and flags are read field by field, in this order, and nothing else changes |
| `GameObject.GameSettings.ApplyPlayTables` | source/program/config.cpp:492-572 | the extra, cheat and loot sections are read field by field, in this order, and nothing else changes |
| `GameObject.GameSettings.Apply` | source/program/config.cpp:467-574 | the season map runs last, on the mode, the seasons and the flags just read; together this is the other half of the specification |
| `PatchConfigObject.PatchConfig.constructor` | source/program/config.hpp:31-217 | a new object holds the defaults |
| `PatchConfigObject.PatchConfig.ApplySections` | source/program/config.cpp:463-574 | the schema half and then the other half, each leaving the other alone |
| `PatchConfigObject.PatchConfig.ApplyTable` | source/program/config.cpp:463-578 | the in-place updates of all fields follow the rules of the file, compute the function the laws are about, and keep every field within its type |
| `PatchConfigObject.FromTable` | source/program/config.cpp:612-618 | a default-constructed object to which a tree is applied holds what the tree gives over the defaults |
| `PatchConfigObject.PatchConfig.NormalizePatchConfig` | source/program/config.cpp:605-610 | a fresh object with the normalised value; the original object is left alone |
| `PatchConfigObject.PatchConfig.TableToSave` | source/program/config.cpp:620-622 | the tree that is saved is the one built from the normalised configuration and shows it name by name |
| `ConfigRoundTrip.SectionsOfBuiltTable` | source/program/config.cpp:366-459 | the tree that is written has every section where the reader looks for it, for every configuration |
| `ConfigRoundTrip.MapModeRoundTrip` | source/program/config.cpp:401-409 | the season-map mode survives writing and reading, whatever mode there was |
| `ConfigRoundTrip.SpeedsRoundTrip` | source/program/config.cpp:411-417 | a speed comes back rounded to tenths and clamped |
| `ConfigRoundTrip.RankRoundTrip` | source/program/config.cpp:438-450 | a rank value in range decides, then the text, then the value there was |
| `ConfigRoundTrip.LanguageRoundTrip` | source/program/config_schema.cpp:416-426 | an empty language is not written and leaves the language there was; any other comes back |
| `ConfigRoundTrip.OutputRoundTrip` | source/program/config_schema.cpp:203-239 | the special resolution fields come back cleaned, independently of the old ones, although each scale setter looks at the other scale |
| `ConfigRoundTrip.WrittenThenApplied` | source/program/config.cpp:366-578 | writing any configuration and applying the tree to any other gives the direct cleaning `CleanOver`, in which only a language and a last-resort rank value of the other survive |
| `ConfigFixpoint.CleanIsCanonical` | source/program/config.cpp:463-578 | cleaning always gives a canonical configuration: every number within its bounds, which are written out, ends of the range in order, speeds in whole tenths, flags closed under the map, rank text matching its value |
| `ConfigFixpoint.CanonicalIsClean` | source/program/config.cpp:463-578 | cleaning leaves a canonical configuration alone |
| `ConfigFixpoint.NormalizeCleans` | source/program/config.cpp:605-610 | normalising is the direct cleaning over the defaults and its result is canonical |
| `ConfigFixpoint.NormalizeFixedPoints` | source/program/config.cpp:605-610 | a configuration is a fixed point of normalisation if and only if it is canonical: season 1-200, range 0-999 in order, window and render sizes -1-16384, refresh rate up to 1000, bit depth to 64, MSAA to 16, item level 0-70, run level 0-150, and the like |
| `ConfigFixpoint.DefaultsAreCanonical` | source/program/config.hpp:31-217 | the built-in defaults are such a fixed point |
| `ConfigFixpoint.NormalizeIdempotent` | source/program/config.cpp:605-610 | normalising twice is normalising once, however far out of range the configuration is |
| `ConfigFixpoint.SaveThenLoad` | source/program/config.cpp:612-622 | applying the saved tree to any configuration restores the normalised one, but for an empty language |
| `ConfigReapply.RiftsTwice` | source/program/config.cpp:474-481 | applying a rift section twice is applying it once if and only if it is not one crossing bound |
| `ConfigReapply.EventsTwice` | source/program/config.cpp:260-273 | the flags are stable under a second application in all three modes |
| `ConfigReapply.RankTwice` | source/program/config.cpp:568-570 | the pair of rank text and value is stable under a second application |
| `ConfigReapply.OutputTwice` | source/program/config_schema.cpp:203-239 | the special resolution fields are stable under a second application, clamping setters included |
| `ConfigReapply.ApplyTwice` | source/program/config.cpp:463-578 | for every tree and every configuration: twice is once if and only if the tree does not give a single end of the rift range that crosses the other end |
| `ConfigReapply.OneBoundCrosses` | source/program/config.cpp:477-480 | a start of 30 over the default 0..20 gives 20..30 and is unstable |
| `ConfigReapply.ApplyTwiceCounterexample` | source/program/config.cpp:477-480 | a file with which the second application changes the defaults again |
| `ConfigKeys.AppliedByReadings` | source/program/config.cpp:463-578 | trees whose aliases read alike give the same configuration |
| `ConfigKeys.UnknownKeysIgnored` | source/program/config.cpp:463-578 | keys that are no alias of their section's fields never affect the configuration |
| `ConfigKeys.RenamedKeyReadsAlike` | source/program/config.cpp:463-578 | within any section whose aliases are apart, such a move changes no reading, under the conversions that come to be tried for the field |
| `ConfigKeys.RenamedKeyApplied` | source/program/config.cpp:463-578 | for every field of every section: the tree with the key replaced by another alias gives the same configuration, when under the conversions tried for the field an earlier alias wins anyway, or none of the others up to the two converts; aliases of the wrong type are fallen through |
| `ConfigKeys.WrongTypeExample` | source/program/config.cpp:46-54 | a switch given as a text is passed over, and the alias behind it may be replaced |
| `ConfigKeys.ModeStringBeatsBool` | source/program/config.cpp:138-144 | a season-map mode given as a string wins over every boolean, wherever the two stand in the alias list |
| `Rotate.Rol` | source/idadefs.h:251-268 | the template, with both branches, truncating shifts and the `or`, computes the rotation; multiples of the width are excluded only where the shift is undefined |
| `Rotate.RotationFormula` | source/idadefs.h:251-268 | the rotation is `(v * 2^k) mod 2^n + v div 2^(n-k)` with `k` the count modulo the width, for any sign of the count |
| `Rotate.RotateLeftIsRotation` | source/idadefs.h:270-294 | a word is the result if and only if every bit stands in its rotated place |
| `Rotate.RotationsCompose` | source/idadefs.h:251-268 | rotations compose by adding their counts |
| `Rotate.FullRotation` | source/idadefs.h:251-268 | a rotation by a multiple of the width is the identity |
| `Rotate.RotationsInvert` | source/idadefs.h:282-294 | `__ROR__` undoes `__ROL__` |
| `Flags.CarryOfSum` | source/idadefs.h:359-367 | the carry is set if and only if the exact unsigned sum leaves the word |
| `Flags.BorrowOfDifference` | source/idadefs.h:340-357 | the borrow is set, or kept inverted, if and only if the stored difference is not the exact one |
| `Flags.OverflowOfSum` | source/idadefs.h:319-331 | the overflow flag is set if and only if the exact signed sum is out of range |
| `Flags.OverflowOfDifference` | source/idadefs.h:305-317 | the overflow flag is set if and only if the exact signed difference is out of range |
| `Flags.BorrowWithCarry` | source/idadefs.h:369-376 | the three-argument flag is the borrow of exact `x - y - cf`, and where the borrow is kept inverted, the absence of one in `x - y - (1 - cf)` |
| `Flags.OverflowWithCarry` | source/idadefs.h:378-385 | the three-argument flag is the overflow of exact `x - y - cf`, and where the borrow is kept inverted, of `x - y - (1 - cf)` |
| `Flags.BorrowUnderPromotion` | source/idadefs.h:369-376 | with the inner sum at a promoted width the borrow is right if and only if that sum fits the operand |
| `Flags.BorrowUnderPromotionExample` | source/idadefs.h:369-376 | 0 - 255 - 1 on bytes borrows and the promoted flag is clear |
| `Flags.OverflowUnderPromotion` | source/idadefs.h:378-385 | with the inner sum at a promoted width the flag only tells whether that sum leaves the operand, and is right if and only if that decides the overflow of the whole |
| `Flags.OverflowUnderPromotionExample` | source/idadefs.h:378-385 | -128 - 1 overflows a byte and the promoted flag is clear |
| `Flags.BorrowOfNarrow` | source/idadefs.h:369-376 | for an unsigned second operand narrower than the first the borrow is right if and only if the inner sum fits it or the first operand would |
| `Flags.BorrowOfNarrowExample` | source/idadefs.h:369-376 | 256 - 255 - 1 with 255 a byte: the flag is set and nothing is borrowed |
| `Flags.BorrowOfNarrowSigned` | source/idadefs.h:369-376 | for a signed second operand narrower than the first the borrow is right if and only if the inner sum stays in its range or the first operand is within its reach |
| `Flags.OverflowOfNarrow` | source/idadefs.h:378-385 | for a signed second operand narrower than the first the overflow is right if and only if the inner sum stays in its range or the first operand is that close to an end of its own |
| `Flags.OverflowOfNarrowExample` | source/idadefs.h:378-385 | 0 - 127 - 1 with 127 a byte: the flag is set and nothing overflows |
| `Flags.OverflowOfNarrowUnsigned` | source/idadefs.h:378-385 | for an unsigned second operand narrower than the first: right without a carry, wrong at the largest signed value of its type, and where the sum wraps to zero right while the exact difference does not overflow |
| `Flags.MulOkIsExact` | source/idadefs.h:219-224 | the test holds if and only if the exact product fits, for any largest value |
| `Flags.SaturatedMulIsTest` | source/idadefs.h:226-232 | the `bool` tells whether the product is nonzero, and is the saturated product if and only if that is at most one |
| `Flags.SaturatedMulExample` | source/idadefs.h:226-232 | two times three elements: the promise is 6, the result is 1 |
| `Memory.Qmemcpy` | source/idadefs.h:236-248 | for every placement byte `i` is the old byte at its origin, which repeats with the distance when the copy runs into its source; nothing outside the destination changes |
| `Memory.OriginStep` | source/idadefs.h:236-248 | the origin is the plain one up to the distance and repeats with it from there on |
| `Memory.PlainCopy` | source/idadefs.h:236-248 | disjoint ranges, or a destination not above the source, give the plain copy |
| `Align.AlignDownIsFloor` | source/types.h:41 | for a power of two the mask gives the greatest multiple not above the address |
| `Align.AlignUpIsCeiling` | source/types.h:40 | it gives the least multiple not below the address if and only if the sum does not wrap around, and zero otherwise |
| `Resolution.DockedIsEvenAndWide` | source/program/config.hpp:83-93 | both docked sides are even, the height is the largest within the target, and the width the largest within 16:9 |
| `Resolution.HandheldBelowDocked` | source/program/config.hpp:106-120 | for every scale the handheld height is even and at most the docked one; for positive scales it is monotone in target and scale |
| `Resolution.HandheldIsScaled` | source/program/config.hpp:106-120 | the handheld height is even-rounded from the percentage that applies: within half a pixel above and one and a half below |
| `ModsJson.DisableEnabledFlags` | misc/scripts/ryu_enable_only_mod.py:83-97 | the two loops and the recursion compute the function below, on every tree |
| `ModsJson.FlagWords` | misc/scripts/ryu_enable_only_mod.py:86-92 | a key names a flag exactly if it reads `enabled`, `isenabled` or `is_enabled`, in whatever case of its letters |
| `ModsJson.DisabledEverywhere` | misc/scripts/ryu_enable_only_mod.py:83-97 | in every dictionary reachable through dictionaries and lists in dictionaries every spelling of the flag is false; no key, no order and no other value changes; lists directly in lists are not entered |
| `ModsJson.DisabledTwice` | misc/scripts/ryu_enable_only_mod.py:83-97 | switching off twice is switching off once |
| `ModsRewrite.NormalizeAndDisable` | misc/scripts/ryu_enable_only_mod.py:119-126 | the first pass, entry by entry |
| `ModsRewrite.EnableTargets` | misc/scripts/ryu_enable_only_mod.py:128-141 | the second pass with its `found` variable: targets enabled in place, one entry appended if and only if there was none |
| `ModsRewrite.RewriteMods` | misc/scripts/ryu_enable_only_mod.py:119-141 | both passes together give the entry-wise rewriting; which entries it switches on is `OnExactlyIfMeant` |
| `ModsRewrite.RewrittenInTwoPasses` | misc/scripts/ryu_enable_only_mod.py:119-141 | looking for targets after the first pass over the whole list is looking entry by entry |
| `ModsRewrite.TargetBeforeAndAfter` | misc/scripts/ryu_enable_only_mod.py:106-126 | the first pass changes no entry into or out of a target, if its path is stable under normalisation |
| `ModsRewrite.EntryRewritten` | misc/scripts/ryu_enable_only_mod.py:119-138 | a target is enabled under the mod's name and path with every other flag off, another dictionary is all off and keeps its name and its normalised path, and anything else is untouched |
| `ModsRewrite.OtherKeysKept` | misc/scripts/ryu_enable_only_mod.py:83-126 | no key but `name`, `path` and `enabled` is gained, lost or changed beyond the flags below it |
| `ModsRewrite.EnablesExactlyTheMod` | misc/scripts/ryu_enable_only_mod.py:104-141 | what is written for each entry, for targets and for others, and that at least one is on; order and other entries are kept, and the list grows by at most one |
| `ModsRewrite.OnExactlyIfMeant` | misc/scripts/ryu_enable_only_mod.py:104-138 | an entry of the written list is on if and only if the normal form of its path is the mod's or has the suffix at its end, or its name is the mod's |
| `ModsRewrite.AppendedUnlessMeant` | misc/scripts/ryu_enable_only_mod.py:128-141 | an entry is appended if and only if no entry of the file is so meant, and it has the mod's name and path and is on |
| `ModsRewrite.EnabledByPath` | misc/scripts/ryu_enable_only_mod.py:109-112 | an entry with the mod's path is on |
| `ModsRewrite.EnabledBySuffix` | misc/scripts/ryu_enable_only_mod.py:113-114 | an entry whose path is anything with the suffix behind it is on |
| `ModsRewrite.EnabledByName` | misc/scripts/ryu_enable_only_mod.py:115-116 | an entry with the mod's name is on, whatever its path |
| `ModsRewrite.DisabledOtherwise` | misc/scripts/ryu_enable_only_mod.py:106-138 | an entry that is none of these is off and keeps its normalised path |
| `ModsRerun.EntryTwice` | misc/scripts/ryu_enable_only_mod.py:119-138 | an entry is rewritten to itself the second time if and only if it is stable |
| `ModsRerun.RewriteTwice` | misc/scripts/ryu_enable_only_mod.py:104-141 | a second run changes nothing if and only if every entry is stable |
| `ModsRerun.UnstablePathExample` | misc/scripts/ryu_enable_only_mod.py:14-22 | a list with the path `/a/..` that a second run changes again |
| `ModsRerun.StablePathsRerun` | misc/scripts/ryu_enable_only_mod.py:104-141 | in particular when path normalisation is idempotent on the paths of the file; the enabled entries are then those that were targets from the start |
| `ModsRerun.ListKey` | misc/scripts/ryu_enable_only_mod.py:70-76 | the list is under the first key that reads `mods` in any case, or under `mods` if there is none |
| `ModsRerun.ListWritten` | misc/scripts/ryu_enable_only_mod.py:76-148 | a list that is there is written rewritten; anything else, or nothing, is replaced by a list of the mod alone |
| `ModsRerun.FileKeyStays` | misc/scripts/ryu_enable_only_mod.py:70-78 | the file that is written has its list under the key the next run looks at |
| `ModsRerun.FileTwice` | misc/scripts/ryu_enable_only_mod.py:69-151 | the same for the whole file, in which no other key is touched |
| `CEscape.EscapeIsOnePass` | scripts/gen_build_git.py:17-25 | five replacements one after the other are a single pass, character by character |
| `CEscape.FiveAreEscaped` | scripts/gen_build_git.py:17-25 | five characters become a backslash and one character, every other one stays |
| `CEscape.ReadEscaped` | scripts/gen_build_git.py:17-25 | reading the escaped string between quotes, without trigraph replacement, gives the original, and the literal ends where it should whatever follows, so no raw quote is left |
| `CEscape.ReadWithTrigraphs` | scripts/gen_build_git.py:17-25 | with trigraphs replaced first, the same holds if and only if the original has no trigraph |
| `CEscape.TrigraphExample` | scripts/gen_build_git.py:17-25 | `??/` is read as something else |
| `CEscape.EscapeInjective` | scripts/gen_build_git.py:17-25 | different strings have different escapes |
| `CEscape.NoControlLeft` | scripts/gen_build_git.py:17-25 | no newline, carriage return or tab is left |
| `Importer.Execute` | tools/import_challenge_dumps.py:102-112 | the loop computes the step-by-step execution, stopping at the first missing file |
| `Importer.OneRound` | tools/import_challenge_dumps.py:103-112 | one round in terms of the files before it: destination, backup, source and everything else |
| `Importer.StopsOnlyOntoItself` | tools/import_challenge_dumps.py:102-112 | with its sources there, a plan stops if and only if it brings some file onto itself |
| `Importer.InOrderIsSimultaneous` | tools/import_challenge_dumps.py:102-112 | a plan in which every file is brought away before it is replaced, or when copying is replaced by the same content, succeeds if and only if its sources exist, and is then the simultaneous assignment: old contents at the destinations, replaced files in their backups, sources gone or kept, everything else unchanged |
| `Importer.SequentialIsSimultaneous` | tools/import_challenge_dumps.py:102-112 | in particular for sources, destinations and backups that are independent of each other |
| `Importer.ExactlyInOrder` | tools/import_challenge_dumps.py:102-112 | with its sources there, a plan is carried out as the simultaneous assignment if and only if it is in order |
| `ImportPlan.SmallestFirst` | tools/import_challenge_dumps.py:30-33 | the configuration is a smallest file, and the first of those |
| `ImportPlan.SortIsStable` | tools/import_challenge_dumps.py:36-37 | the rifts are in order of time, none lost or doubled, and files of one time keep their order |
| `Decimals.DecimalIsNumeral` | tools/import_challenge_dumps.py:90-91 | what is printed for a number is digits without a leading zero that read, most significant first, as the number |
| `Decimals.OneNumeral` | tools/import_challenge_dumps.py:90-91 | no other string of digits without a leading zero reads as that number |
| `ImportPlan.DecimalInjective` | tools/import_challenge_dumps.py:90-91 | different numbers print differently |
| `ImportPlan.Destinations` | tools/import_challenge_dumps.py:86-91 | all destinations lie in the target directory, end in `.dat` and are pairwise distinct |
| `ImportPlan.PlannedNames` | tools/import_challenge_dumps.py:86-91 | the first destination is `challengerift_config.dat`, and the one at place i + 1 `challengerift_`, digits that read as i, `.dat` |
| `ImportPlan.PlannedFiles` | tools/import_challenge_dumps.py:30-37 | the first source is the first of the smallest files; the others follow from old to new, in their listed order where they are equally old, each once |
| `ImportPlan.EachCandidateOnce` | tools/import_challenge_dumps.py:59-91 | the plan uses every candidate exactly once |
| `ImportPlan.BuildPlan` | tools/import_challenge_dumps.py:64-91 | the actions, appended one by one, are the plan, whose files and names `PlannedFiles` and `PlannedNames` give |
| `ImportPlan.IndependentUnlessClash` | tools/import_challenge_dumps.py:86-112 | a default plan is independent if and only if no candidate is itself a destination; backups never interfere |
| `ImportPlan.DefaultImportStops` | tools/import_challenge_dumps.py:59-112 | an import stops with an error if and only if a candidate already has its planned name |
| `ImportPlan.DefaultImport` | tools/import_challenge_dumps.py:59-112 | an import is carried out as the simultaneous assignment if and only if every candidate that has a planned name is brought away before the name is taken or, when copying, is replaced by the same content |
| `ImportPlan.OtherDirectory` | tools/import_challenge_dumps.py:52-60 | importing from another directory always succeeds as the simultaneous assignment |
| `ImportPlan.OntoItselfFails` | tools/import_challenge_dumps.py:103-112 | a file planned onto itself is backed up and then missing, so the import stops |
| `ImportPlan.SameDirectoryExample` | tools/import_challenge_dumps.py:103-112 | a directory whose import into itself stops |
| `ImportPlan.SameDirectoryMixesUp` | tools/import_challenge_dumps.py:86-112 | a directory whose import into itself ends without an error, with one rift under the wrong number and the other in a backup only |
| `AtomicWrite.Disk.WriteAllAtomic` | source/program/fs_util.cpp:41-108 | for every set of operations that the disk refuses: the program takes exactly its steps; `true` is returned if and only if nothing on the way to the new text is refused and nothing stays in that way; then the text is in place, and a disk that refuses nothing holds neither temporary file nor backup; after a single fault that makes it give up, the file is as before, or the backup has taken the place of a missing one; every state before the rename into place is sound and holds what the disk held |
| `AtomicWrite.Disk.MoveAside` | source/program/fs_util.cpp:80-89 | from the written text: the old backup is dropped and the file moved there, or the program turns to giving up |
| `AtomicWrite.Disk.MoveIntoPlace` | source/program/fs_util.cpp:91-107 | from the cleared path to the end: the rename and the dropped backup, or putting the backup back and giving up, each as the disk allows |
| `AtomicWrite.ResultByFaults` | source/program/fs_util.cpp:41-108 | what a completed run returns and leaves, by the faults of the disk: the exact condition for success, the disk after success with any left-over backup, and the disk after each single fault |
| `AtomicWrite.SavedWithoutFaults` | source/program/fs_util.cpp:41-108 | on a disk that refuses nothing every save succeeds and leaves the new text alone |
| `AtomicWrite.StepKeeps` | source/program/fs_util.cpp:41-108 | every single operation, refused or not, keeps the invariant: before the rename into place the disk holds what it held, after it the new text |
| `AtomicWrite.TakesEffectOnce` | source/program/fs_util.cpp:41-108 | every run, complete or cut short, switches from the old to the new text at one moment or not at all |
| `AtomicWrite.LoadIsSafeExactly` | source/program/config.cpp:580-603 | for every sound disk and text: wherever the write is cut short, loading sees what it saw before or the new text if and only if there was no file and no backup of another text |
| `AtomicWrite.BackupIsBroughtBack` | source/program/fs_util.cpp:91-96 | from any disk with a backup and no file a write can put the old backup at the path |
| `AtomicWrite.NoFileIsReached` | source/program/fs_util.cpp:80-92 | from any disk with a file a write can leave none |
| `AtomicWrite.LoadingSeesOldOrNew` | source/program/config.cpp:580-603 | if there was a file, a state of the write without one comes only after it was moved aside, and the backup then holds the complete old text; in every other state loading sees the old or the new text |
| `AtomicWrite.CrashBetweenRenames` | source/program/fs_util.cpp:80-92 | a run of the program that reaches a state with nothing to load and the old text in the backup, though nothing was refused |
| `AtomicWrite.FailedWriteLeavesNoFile` | source/program/fs_util.cpp:91-101 | a complete run that returns an error and leaves nothing to load |
| `AtomicWrite.AnyStepIsSafe` | source/program/fs_util.cpp:41-108 | a crash at any step of any run leaves the old text held or the new one in place |
| `AtomicWrite.NeverTorn` | source/program/fs_util.hpp:13-18 | starting from a sound disk, no number of writes, each cut short anywhere, leaves a torn file at the path or in the backup |
| `AtomicWrite.LastEffectiveWriteIsHeld` | source/program/fs_util.hpp:13-18 | after any number of such writes the disk holds the last text that took effect, or what it held at first |
| `AtomicWrite.NeverLost` | source/program/fs_util.hpp:13-18 | once the disk holds a complete text, the path or the backup always does |

## Left out

- TOML parsing, formatting and conversions: a tree is a datatype, the four conversions are a parameter, and `Exact` lists what is assumed of them (own types read back, 53-bit integers keep their value as doubles).
- Floating point: doubles and floats are reals. Rounding, NaN and infinities, and with them the finiteness checks of the schema reader, are not modelled; `std::round` is half away from zero.
- Integer fields hold 32-bit values; whether a field is signed is not tracked beyond the two unsigned resolution fields.
- The memory mode that limits the output target is a parameter, the same during writing and reading.
- The order of keys in a written table, and filling it key by key: a table is a map built at once, which is the same because the keys are proved distinct.
- Reading and parsing the file, error messages, the allocator, logging, and the handheld scale set after loading.
- Rotate.Rol: unsigned words only; signed instantiations, a count of `INT_MIN`, and full-width shifts at 32 bits and above are outside it.
- ConfigKeys.RenamedKeyApplied: one renamed key at a time; several follow one after the other.
- SectionObject.Section.Read: visits the fields in any order, where the source has a fixed one; the result is the same.
- Flags.BorrowWithCarry: operands whose second is at least as wide as the first; narrower ones are in `BorrowOfNarrow` and `BorrowOfNarrowSigned`, for flags that are not inverted.
- Flags.OverflowWithCarry: the same, with `OverflowOfNarrow` and `OverflowOfNarrowUnsigned`; needs two bits at least, which every machine type has.
- Byte-access macros, `__coerce`, and the other definitions of `source/idadefs.h`.
- Resolution.HandheldBelowDocked: exact arithmetic for the percentage; the handheld width and the texture sizes are not modelled.
- The internals of `_norm_path` and of the expected suffix: path normalisation is any function, the suffix is given.
- ModsRewrite.RewriteMods: JSON objects are values and not shared heap objects; a parsed file is a tree, so nothing is shared. Lower-casing is that of ASCII letters, which decides the keys in question.
- Backups, dry runs, verbose output and argument parsing of the scripts; git calls of the build stamp.
- Importer: the error for a directory without dumps, for which the plan here is empty; explicit `--config` and `--rifts`, glob patterns, symbolic links, directories at the planned names, and times and permissions kept by a copy.
- AtomicWrite.Disk.WriteAllAtomic: only files at the three paths; a rename is atomic and refuses an existing target; asking whether a file exists may wrongly say no, never wrongly yes. Flushing and closing are part of the write. What the disk holds in the end after two or more faults that make the write give up is not stated exactly, only that it holds what it held.
- The values of the built-in defaults and of the example configuration file: constants, stated once.
- The bindings in `include/nvn` and `source/nn`, hooks, patches, GUI, runtime re-application, exception handler and boot report: bindings and logging with no more than easy properties.
