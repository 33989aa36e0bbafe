# FFXIVClientStructs: weekly-puzzle addon layout and two source generators

This project is a Dafny model of three pieces of FFXIVClientStructs:

- **The weekly-puzzle addon** (`AddonWeeklyPuzzle`):
  - its 6 x 6 tile board;
  - the two integer indexers, `GameTileRow.this[int]` and `GameTileBoard.this[int]`. These use C#'s truncating division and throw `ArgumentOutOfRangeException`;
  - the explicit memory layout of the addon and its nested structs, via their `FieldOffset` and `Size` tables.
- **The VTable-address generator.** It combines the validated attribute arguments into a `StaticAddressInfo` and renders one source file per struct. That file holds an `Addresses` class with one address declaration per info, and a `StaticAddressPointers` class with one pointer property per info. The generator also renders the resolver file, which registers every validated struct's address in a module initializer. The generator also builds the per-struct file name.
- **The info-proxy getter generator.** It extracts an info for each struct that carries an `InfoProxy` attribute and drops the structs whose extraction gives null. For each info it renders a static `Instance()` getter. Across all infos it renders one `Get<Name>()` member of `InfoModule` per info.

The code generators write through an indenting builder (`IndentedStringBuilder` / `IndentedTextWriter`). That builder is modelled as the `Writer.LineWriter` class: a list of lines, each with its indentation depth, and the current depth. Every render method either:

- updates such a builder in place and states its whole new state; or
- builds one on a fresh writer and returns its lines, equal to a specification function. Lemmas then state the layout of those lines: which line holds what, in which order and at which depth.

Modules:

| file | module | contents |
|---|---|---|
| `wrappers.dfy` | `Wrappers` | `Option`, `Result` |
| `text.dfy` | `Text` | C#'s invariant decimal rendering of integers and its parse-back; `string.Join` and its inverse split on a separator; reading back the last integer argument of a rendered call |
| `writer.dfy` | `Writer` | `Line`, `AtDepth`, the `LineWriter` builder |
| `weekly_puzzle.dfy` | `WeeklyPuzzle` | tiles, rows, the board and the two indexers |
| `weekly_puzzle_layout.dfy` | `WeeklyPuzzleLayout` | offset and size tables and their consistency |
| `vtable_address_generator.dfy` | `VTableAddressGenerator` | the VTable-address generator |
| `info_proxy_getter_generator.dfy` | `InfoProxyGetterGenerator` | the info-proxy getter generator |

## Model

| member | source | states |
|---|---|---|
| WeeklyPuzzle.TruncDiv | Component/GUI/Addon/AddonWeeklyPuzzle.cs:84-91 | C#'s `/` with divisor 6: the remainder is within the divisor in magnitude and takes the dividend's sign (rounding toward zero) |
| WeeklyPuzzle.TruncDivOfNonNegative | Component/GUI/Addon/AddonWeeklyPuzzle.cs:84-91 | for non-negative indices C#'s `/` and `%` agree with Euclidean division |
| WeeklyPuzzle.TruncRem | Component/GUI/Addon/AddonWeeklyPuzzle.cs:84-91 | C#'s `%` with divisor 6: the remainder is below the divisor in magnitude, non-negative for a non-negative index and non-positive for a negative one |
| WeeklyPuzzle.RowColumn | Component/GUI/Addon/AddonWeeklyPuzzle.cs:62-71 | the row switch accepts exactly 0..5; any other index is the row indexer's out-of-range error; it never selects the sixth column |
| WeeklyPuzzle.RowAt | Component/GUI/Addon/AddonWeeklyPuzzle.cs:62-71 | `GameTileRow.this[int]`: succeeds exactly on 0..5, and otherwise fails with the row indexer's out-of-range error; the lemmas below give each value |
| WeeklyPuzzle.RowAtValues | Component/GUI/Addon/AddonWeeklyPuzzle.cs:62-71 | each of the six accepted indices reads one column; 3 and 4 both read `Col4`, 5 reads `Col5` |
| WeeklyPuzzle.RowAtRejects | Component/GUI/Addon/AddonWeeklyPuzzle.cs:62-71 | the row indexer fails exactly outside 0..5, negative indices included, with its own out-of-range error |
| WeeklyPuzzle.RowAtMissesCol6 | Component/GUI/Addon/AddonWeeklyPuzzle.cs:62-71 | in a row whose sixth tile differs from the other five, no index returns the sixth tile |
| WeeklyPuzzle.BoardAt | Component/GUI/Addon/AddonWeeklyPuzzle.cs:84-93 | `GameTileBoard.this[int]`: the board's own switch throws exactly for indices at most -6 or at least 36, since truncation sends -5..35 to rows 0..5; the lemmas below give the values |
| WeeklyPuzzle.BoardAtInRange | Component/GUI/Addon/AddonWeeklyPuzzle.cs:84-93 | for 0..35 the board indexer reads row `i / 6` at position `i % 6`; the column read is never the sixth |
| WeeklyPuzzle.BoardAtRejects | Component/GUI/Addon/AddonWeeklyPuzzle.cs:84-93 | the board indexer fails exactly outside 0..35; -5..-1 are rejected by the row indexer (truncation puts them in row 0), the rest by the board's own switch |
| WeeklyPuzzle.BoardAtReaches | Component/GUI/Addon/AddonWeeklyPuzzle.cs:84-93 | every tile outside the sixth column is returned by some index in 0..35 |
| WeeklyPuzzle.IntendedRowColumn | Component/GUI/Addon/AddonWeeklyPuzzle.cs:62-71 | corrected switch: accepts exactly 0..5 and index k selects the column declared k-th |
| WeeklyPuzzle.IntendedRowAt | Component/GUI/Addon/AddonWeeklyPuzzle.cs:62-71 | corrected row indexer: succeeds exactly on 0..5 and reads the column declared at that position; otherwise the row indexer's error |
| WeeklyPuzzle.IntendedBoardAt | Component/GUI/Addon/AddonWeeklyPuzzle.cs:84-93 | corrected board indexer: the board's own switch throws exactly for indices at most -6 or at least 36 |
| WeeklyPuzzle.IntendedBoardAtExact | Component/GUI/Addon/AddonWeeklyPuzzle.cs:84-93 | corrected board indexer: accepts exactly 0..35 and reads row `i / 6`, column `i % 6` |
| WeeklyPuzzle.IntendedBoardAtOneToOne | Component/GUI/Addon/AddonWeeklyPuzzle.cs:84-93 | corrected board indexer: every tile, the sixth column included, is read by index `6r + c`, and by no other index |
| WeeklyPuzzle.IntendedBoardAtInjective | Component/GUI/Addon/AddonWeeklyPuzzle.cs:84-93 | corrected board indexer: on a board of pairwise distinct tiles, two indices in 0..35 that return the same tile are equal |
| WeeklyPuzzleLayout.RewardPanelItemLayout | Component/GUI/Addon/AddonWeeklyPuzzle.cs:31-39 | five 8-byte fields at 8-byte steps exactly fill 0x28 bytes; the fields are ordered, disjoint and inside the struct |
| WeeklyPuzzleLayout.GameTileItemLayout | Component/GUI/Addon/AddonWeeklyPuzzle.cs:41-50 | six 8-byte fields exactly fill 0x30 bytes; ordered, disjoint, inside |
| WeeklyPuzzleLayout.GameTileRowLayout | Component/GUI/Addon/AddonWeeklyPuzzle.cs:52-60 | column k at k * 0x30; six tiles exactly fill 0x120 bytes; ordered, disjoint, inside |
| WeeklyPuzzleLayout.GameTileBoardLayout | Component/GUI/Addon/AddonWeeklyPuzzle.cs:74-82 | row k at k * 0x120; six rows exactly fill 0x6C0 bytes; ordered, disjoint, inside |
| WeeklyPuzzleLayout.AddonWeeklyPuzzleNeighbours | Component/GUI/Addon/AddonWeeklyPuzzle.cs:9-29 | the addon's offsets strictly increase, and every field of known size ends before the next one starts |
| WeeklyPuzzleLayout.AddonWeeklyPuzzleWithinSize | Component/GUI/Addon/AddonWeeklyPuzzle.cs:9-29 | every addon field starts below 0xD00, and one of known size ends within it |
| WeeklyPuzzleLayout.AddonWeeklyPuzzleLayout | Component/GUI/Addon/AddonWeeklyPuzzle.cs:9-29 | the addon's fields are ordered and pairwise disjoint; the four reward panels sit back to back from 0x220, and the last ends exactly at `Unk2C0`; the board ends at 0x9B8, before `UnkA38` |
| WeeklyPuzzleLayout.IndexerTileOffset | Component/GUI/Addon/AddonWeeklyPuzzle.cs:52-93 | index i reads the tile 0x30 * i bytes into the board at positions 0..3 of a row, and one tile earlier at 4 and 5; it never reads a row's last 0x30 bytes and never reads past the board |
| WeeklyPuzzleLayout.IntendedIndexerTileOffset | Component/GUI/Addon/AddonWeeklyPuzzle.cs:52-93 | with the corrected switch, index i reads the tile exactly 0x30 * i bytes into the board |
| Text.ParseSignedDecimalOfDecimal | FFXIVClientStructs.InteropSourceGenerators/VTableAddressGenerator.cs:128 | the decimal rendering of an interpolated `int` parses back to the same integer, negative values included |
| Text.DecimalOfDigitsValue | FFXIVClientStructs.InteropSourceGenerators/VTableAddressGenerator.cs:128 | the converse round trip: a digit string without leading zeros is exactly the rendering of its value, so the rendering of an interpolated `int` is the unique canonical one |
| Text.ClosingIntegerArgumentOf | FFXIVClientStructs.InteropSourceGenerators/VTableAddressGenerator.cs:128 | after a prefix that does not end in a digit or `-`, a rendered integer closing a call `…n);` reads back as n |
| Text.SplitJoin | FFXIVClientStructs.InteropSourceGenerators/VTableAddressGenerator.cs:138-139 | splitting a dot-join of dot-free parts gives the parts back |
| Text.JoinSplit | FFXIVClientStructs.InteropSourceGenerators/VTableAddressGenerator.cs:138-139 | joining the split of a string gives the string back |
| VTableAddressGenerator.GetFromRoslyn | FFXIVClientStructs.InteropSourceGenerators/VTableAddressGenerator.cs:104-123 | success exactly when the struct info, the signature argument, its validation, the offset and the is-pointer argument all succeed, and then the info holds those four values; otherwise every failure's diagnostics, in argument order; signature validation runs only on a read signature |
| VTableAddressGenerator.AddressLine | FFXIVClientStructs.InteropSourceGenerators/VTableAddressGenerator.cs:127-128 | the address declaration; stated by `AddressLineName`, `AddressLineOffset` and `AddressLineIgnoresIsPointer` |
| VTableAddressGenerator.PointerLine | FFXIVClientStructs.InteropSourceGenerators/VTableAddressGenerator.cs:133 | the pointer property; stated by `SourceLinesPointers`, which puts one per info inside the pointers class |
| VTableAddressGenerator.FullTypeName | FFXIVClientStructs.InteropSourceGenerators/VTableAddressGenerator.cs:138-139 | the full type name; stated by `FullTypeNameJoin` and `FullTypeNameParts` |
| VTableAddressGenerator.RegistrationLine | FFXIVClientStructs.InteropSourceGenerators/VTableAddressGenerator.cs:140 | the registration; stated by `RegistrationLineShape` and `ResolverRegistrationsMembers` |
| VTableAddressGenerator.FileName | FFXIVClientStructs.InteropSourceGenerators/VTableAddressGenerator.cs:180-183 | `GetFileName`; stated by `FileNameStem`, `FileNameInjective` and `FileNameIgnoresHierarchy` |
| VTableAddressGenerator.StaticAddressInfo.RenderAddress | FFXIVClientStructs.InteropSourceGenerators/VTableAddressGenerator.cs:125-129 | appends exactly the address declaration at the builder's current depth, leaving the depth unchanged |
| VTableAddressGenerator.StaticAddressInfo.RenderPointer | FFXIVClientStructs.InteropSourceGenerators/VTableAddressGenerator.cs:131-134 | appends exactly the pointer property at the current depth |
| VTableAddressGenerator.StaticAddressInfo.RenderAddToResolver | FFXIVClientStructs.InteropSourceGenerators/VTableAddressGenerator.cs:136-141 | appends exactly the registration of the struct's address at the current depth |
| VTableAddressGenerator.AddressLineName | FFXIVClientStructs.InteropSourceGenerators/VTableAddressGenerator.cs:127-128 | the address declaration names the address `<Name>.VTable` |
| VTableAddressGenerator.AddressLineOffset | FFXIVClientStructs.InteropSourceGenerators/VTableAddressGenerator.cs:127-128 | the declaration ends with the arguments `0` and the offset, and its last argument reads back as the offset |
| VTableAddressGenerator.AddressLineIgnoresIsPointer | FFXIVClientStructs.InteropSourceGenerators/VTableAddressGenerator.cs:101-128 | the declaration does not depend on `IsPointer` |
| VTableAddressGenerator.FullTypeNameJoin | FFXIVClientStructs.InteropSourceGenerators/VTableAddressGenerator.cs:138-139 | the full type name is `global::` and the dot-join of namespace, enclosing types and name, with or without enclosing types |
| VTableAddressGenerator.FullTypeNameParts | FFXIVClientStructs.InteropSourceGenerators/VTableAddressGenerator.cs:138-139 | the full type name splits back into the namespace's parts, the enclosing types and the name |
| VTableAddressGenerator.RegistrationLineShape | FFXIVClientStructs.InteropSourceGenerators/VTableAddressGenerator.cs:136-141 | the registration passes `<full type name>.Addresses.VTable` to `RegisterAddress` |
| VTableAddressGenerator.StructWithStaticAddressInfos.RenderSource | FFXIVClientStructs.InteropSourceGenerators/VTableAddressGenerator.cs:147-178 | the lines written between `RenderStart` and `RenderEnd` are exactly the per-struct file's specification |
| VTableAddressGenerator.StructWithStaticAddressInfos.RenderAddressesClass | FFXIVClientStructs.InteropSourceGenerators/VTableAddressGenerator.cs:153-159 | from an empty builder writes exactly the `Addresses` block and returns to depth 0 |
| VTableAddressGenerator.StructWithStaticAddressInfos.RenderVTableStruct | FFXIVClientStructs.InteropSourceGenerators/VTableAddressGenerator.cs:161-166 | appends the empty `<Name>VTable` struct, then opens the pointers class at depth 1 |
| VTableAddressGenerator.StructWithStaticAddressInfos.RenderPointersClass | FFXIVClientStructs.InteropSourceGenerators/VTableAddressGenerator.cs:167-173 | appends one pointer per info at depth 1, closes the class and appends the `StaticVTable` property |
| VTableAddressGenerator.StructWithStaticAddressInfos.RenderAddresses | FFXIVClientStructs.InteropSourceGenerators/VTableAddressGenerator.cs:156 | appends one address declaration per info, in order, at the current depth |
| VTableAddressGenerator.StructWithStaticAddressInfos.RenderPointers | FFXIVClientStructs.InteropSourceGenerators/VTableAddressGenerator.cs:168 | appends one pointer property per info, in order, at the current depth |
| VTableAddressGenerator.StructWithStaticAddressInfos.RenderResolverSource | FFXIVClientStructs.InteropSourceGenerators/VTableAddressGenerator.cs:185-188 | appends one registration per info at the current depth, leaving the depth unchanged |
| VTableAddressGenerator.SourceLinesFront | FFXIVClientStructs.InteropSourceGenerators/VTableAddressGenerator.cs:147-166 | the file's front part has 10 + n lines and starts with the `Addresses` block |
| VTableAddressGenerator.SourceLinesStartWithAddresses | FFXIVClientStructs.InteropSourceGenerators/VTableAddressGenerator.cs:147-173 | the per-struct file has 14 + 2n lines and opens with the `Addresses` block |
| VTableAddressGenerator.AddressesBlockLines | FFXIVClientStructs.InteropSourceGenerators/VTableAddressGenerator.cs:153-159 | the `Addresses` block: class head, `{`, declaration k of info k at depth 1, `}` |
| VTableAddressGenerator.SourceLinesAddresses | FFXIVClientStructs.InteropSourceGenerators/VTableAddressGenerator.cs:153-158 | in the file, line 2 + k is info k's declaration one level deeper than its braces, and nothing else is inside them |
| VTableAddressGenerator.SourceLinesPointers | FFXIVClientStructs.InteropSourceGenerators/VTableAddressGenerator.cs:165-172 | the pointers class holds exactly n pointer properties at depth 1, followed by the `StaticVTable` property |
| VTableAddressGenerator.SourceLinesIndented | FFXIVClientStructs.InteropSourceGenerators/VTableAddressGenerator.cs:153-170 | only the address declarations and the pointer properties are indented |
| VTableAddressGenerator.FileNameStem | FFXIVClientStructs.InteropSourceGenerators/VTableAddressGenerator.cs:180-183 | the file name is the namespace, a dot and the name, then `.VTableAddresses.g.cs` |
| VTableAddressGenerator.FileNameInjective | FFXIVClientStructs.InteropSourceGenerators/VTableAddressGenerator.cs:180-183 | structs with dot-free names share a file name only when namespace and name agree |
| VTableAddressGenerator.FileNameIgnoresHierarchy | FFXIVClientStructs.InteropSourceGenerators/VTableAddressGenerator.cs:180-183 | the file name does not depend on the enclosing types |
| VTableAddressGenerator.RenderResolverHead | FFXIVClientStructs.InteropSourceGenerators/VTableAddressGenerator.cs:73-88 | writes the ten header lines and leaves the builder two levels deep |
| VTableAddressGenerator.BuildResolverSource | FFXIVClientStructs.InteropSourceGenerators/VTableAddressGenerator.cs:70-99 | the resolver file is exactly its specification: header, each successful struct's registrations in order, two closing braces |
| VTableAddressGenerator.ResolverRegistrationsAppend | FFXIVClientStructs.InteropSourceGenerators/VTableAddressGenerator.cs:90-91 | registrations of earlier structs come before those of later ones |
| VTableAddressGenerator.ResolverRegistrationsStep | FFXIVClientStructs.InteropSourceGenerators/VTableAddressGenerator.cs:90-91 | one more struct adds its registrations at depth 2 when it validated, and nothing when it failed |
| VTableAddressGenerator.ResolverRegistrationsMembers | FFXIVClientStructs.InteropSourceGenerators/VTableAddressGenerator.cs:90-91 | a line is registered exactly when it is the registration of a successfully validated struct with at least one info |
| VTableAddressGenerator.ResolverRegistrationsAllFailed | FFXIVClientStructs.InteropSourceGenerators/VTableAddressGenerator.cs:90-91 | when every validation failed nothing is registered |
| VTableAddressGenerator.ResolverSourceLayout | FFXIVClientStructs.InteropSourceGenerators/VTableAddressGenerator.cs:70-99 | the registrations sit at depth 2 right after the header, followed by `}` at depth 1 and `}` at depth 0 |
| InfoProxyGetterGenerator.GetInfo | FFXIVClientStructs.Generators/InfoProxyGetterGenerator.cs:18-24 | an info exactly when the target is a named type and its id argument reads as a `uint`, and it holds both |
| InfoProxyGetterGenerator.Kept | FFXIVClientStructs.Generators/InfoProxyGetterGenerator.cs:25 | the `Where` filter on one extraction: nothing exactly when the extraction gave null, otherwise that one info |
| InfoProxyGetterGenerator.CollectInfos | FFXIVClientStructs.Generators/InfoProxyGetterGenerator.cs:14-25 | the filter never yields more infos than there are targets |
| InfoProxyGetterGenerator.CollectInfosAppend | FFXIVClientStructs.Generators/InfoProxyGetterGenerator.cs:14-25 | the filter keeps the order: infos of earlier targets come first |
| InfoProxyGetterGenerator.CollectInfosMembers | FFXIVClientStructs.Generators/InfoProxyGetterGenerator.cs:18-25 | an info is collected exactly when some target's extraction yields it |
| InfoProxyGetterGenerator.CollectInfosAllReadable | FFXIVClientStructs.Generators/InfoProxyGetterGenerator.cs:18-25 | when every target is readable nothing is dropped: info k is target k's |
| InfoProxyGetterGenerator.InstanceGetterFileName | FFXIVClientStructs.Generators/InfoProxyGetterGenerator.cs:28 | the file-name interpolation; stated by `InstanceGetterFileNameInjective` |
| InfoProxyGetterGenerator.InstanceReturnLine | FFXIVClientStructs.Generators/InfoProxyGetterGenerator.cs:44 | the getter's return; stated by `InstanceReturnLineGuard` and `InstanceReturnLineId` |
| InfoProxyGetterGenerator.InstanceGetterFileNameInjective | FFXIVClientStructs.Generators/InfoProxyGetterGenerator.cs:28 | infos share an `InstanceGetter` file name only when their metadata names agree |
| InfoProxyGetterGenerator.RenderInstanceGetter | FFXIVClientStructs.Generators/InfoProxyGetterGenerator.cs:36-50 | the lines between `RenderStart` and `RenderEnd` are exactly the getter's specification |
| InfoProxyGetterGenerator.InstanceGetterBody | FFXIVClientStructs.Generators/InfoProxyGetterGenerator.cs:41-45 | the getter: signature, `{`, the module fetch and the return at depth 1, `}` |
| InfoProxyGetterGenerator.InstanceReturnLineGuard | FFXIVClientStructs.Generators/InfoProxyGetterGenerator.cs:44 | the return gives null when the info module is null |
| InfoProxyGetterGenerator.InstanceReturnLineId | FFXIVClientStructs.Generators/InfoProxyGetterGenerator.cs:44 | the proxy looked up is the one with the info's own id |
| InfoProxyGetterGenerator.RenderInfoModuleGetters | FFXIVClientStructs.Generators/InfoProxyGetterGenerator.cs:52-69 | the getters file is exactly its specification |
| InfoProxyGetterGenerator.InfoModuleGetterLayout | FFXIVClientStructs.Generators/InfoProxyGetterGenerator.cs:52-69 | header and namespace first, then inside the `InfoModule` block exactly one getter per info at depth 1, in order, then `}` |
| InfoProxyGetterGenerator.ModuleGetterLine | FFXIVClientStructs.Generators/InfoProxyGetterGenerator.cs:64 | one module getter; stated by `ModuleGetterLineName`, `ModuleGetterLineId` and `ModuleGetterOfInfo` |
| InfoProxyGetterGenerator.ModuleGetterLineName | FFXIVClientStructs.Generators/InfoProxyGetterGenerator.cs:64 | a getter is declared `public <metadata name>* Get<Name>()` |
| InfoProxyGetterGenerator.ModuleGetterLineId | FFXIVClientStructs.Generators/InfoProxyGetterGenerator.cs:64 | a getter looks up the proxy with its info's own id |
| InfoProxyGetterGenerator.ModuleGetterOfInfo | FFXIVClientStructs.Generators/InfoProxyGetterGenerator.cs:63-65 | getter k belongs to info k and reads back info k's id |
| Writer.LineWriter.constructor | FFXIVClientStructs.InteropSourceGenerators/VTableAddressGenerator.cs:73 | a new builder is empty, at depth 0 |
| Writer.LineWriter.AppendLine | FFXIVClientStructs.InteropSourceGenerators/VTableAddressGenerator.cs:75-87 | appends one line at the current depth; the depth is unchanged |
| Writer.LineWriter.Indent | FFXIVClientStructs.InteropSourceGenerators/VTableAddressGenerator.cs:84 | the depth goes up by one; no line is written |
| Writer.LineWriter.DecrementIndent | FFXIVClientStructs.InteropSourceGenerators/VTableAddressGenerator.cs:93-95 | the depth goes down by one; no line is written |
| Writer.LineWriter.OpenBlock | FFXIVClientStructs.Generators/InfoProxyGetterGenerator.cs:42 | the opening of `WriteBlock`: `{` at the current depth, then one level deeper |
| Writer.LineWriter.CloseBlock | FFXIVClientStructs.Generators/InfoProxyGetterGenerator.cs:45 | the closing of `WriteBlock`: one level shallower, then `}` at that depth |

## Left out

- Roslyn: syntax providers, attribute lookup, incremental caching, the `TupleGroupByValidation` grouping and the diagnostic reporting are left out. Their results enter the model as values: `Validation` inputs, `AttributeTarget` records and sequences of structs.
- `StructInfo.GetFromSyntax`, `StructInfo.FromRoslyn`, `GetValidAttributeArgument`, `SignatureInfo.GetValidatedSignature` and `TryGetConstructorArgument` are not part of this model. They become parameters: validations, a validating function, and optional values.
- `GetByteArrayString` and `GetMaskArrayString` are not part of this model. Their results are kept as opaque text in `SignatureInfo`.
- `StructInfo.RenderStart` and `StructInfo.RenderEnd` are not part of this model. The renderers are specified by the lines they write between the two, with depths relative to where `RenderStart` leaves the builder.
- The builders: `ToString`, the indentation width and the line terminators are left out. The output is a sequence of (depth, text) lines. `WriteBlock` is taken to write `{`, indent, then dedent and write `}`, which the using-block shows but its source does not.
- `Validation` and the tuple `Apply` of LanguageExt are not part of this model. Their semantics are taken to be: collect every failure's diagnostics in order, and succeed only when all succeed.
- Integer rendering is taken to be culture-invariant decimal with a leading `-` for negative values.
- The text of the `ArgumentOutOfRangeException` message is left out. Only which indexer throws is kept.
- The fields' contents (pointers, `FFXIVString`, `AtkUnitBase`) are plain values. The sizes of `FFXIVString` and `AtkUnitBase` are not part of this model, so the layout claims make no assumption about them.
- The contents of the diagnostics are opaque.
- `RenderAddToResolver` ignores the info it belongs to. A struct with n infos therefore gets n identical registration lines, and the model reproduces that as written.
- `GetFileName` leaves out the enclosing types (`FileNameIgnoresHierarchy`), so nested structs with the same name and namespace collide. The model reproduces that as written.

## Findings

| source | as written | input that shows it | evidently intended | confidence | as-written member | corrected member |
|---|---|---|---|---|---|---|
| Component/GUI/Addon/AddonWeeklyPuzzle.cs:67-69 | the row switch maps both 3 and 4 to `Col4` and 5 to `Col5`, so `Col6` is unreachable and every board index i with i % 6 in {4, 5} returns the wrong tile | row index 4 returns `Col4` (the same tile as index 3), row index 5 returns `Col5` instead of `Col6`, and no index returns `Col6` | index k returns the (k + 1)-th column, so the 36 board indices cover every tile once, in memory order | high; not executed | WeeklyPuzzle.RowAtMissesCol6 | WeeklyPuzzle.IntendedBoardAtOneToOne |

The indexers above are modelled as written (`RowColumn`, `RowAt`, `BoardAt`). The corrected switch is `IntendedRowColumn`, and `IntendedBoardAt` is the board indexer built on it. `IntendedIndexerTileOffset` shows that the corrected indexers walk the board's tiles in memory order.
