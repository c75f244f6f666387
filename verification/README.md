# A Dafny model of libpsf's decoder

libpsf reads the binary PSF waveform files of Cadence simulators. A file is a signature, up to five
numbered sections (header, types, sweeps, traces, values), a table of section offsets, the mark
"Clarissa" and the offset of that table. This project models how the bytes become header properties, type
definitions, traces and values, and proves that the decoder inverts the format: the library has no
writer, so each layout has an encoder here that exists for specification only.

## How it is built

A file is an immutable sequence of bytes and a cursor is a position in it. `At(buf, p, s)` says that `buf`
holds the bytes `s` at `p`. C++ exceptions, and situations in which the library has no defined behaviour
(a dereferenced end iterator, a null section, a read outside the file), are the `Err` cases of `Result`.
Doubles are 64-bit patterns. Strings are byte sequences.

Each loop and each object the library updates in place is a method or a class with fields, proved equal to
a function of its input (`ParseFields`, `DecodeWindows`, `AddSlots`, ...); the theorems are about those functions.

| file | contents |
|---|---|
| `Base.dfy`, `Words.dfy`, `Keys.dfy` | results, big-endian words and strings, maps filled in list order |
| `Properties.dfy`, `Types.dfy`, `Values.dfy` | property blocks, the recursive type grammar, type-directed decoding |
| `Legibility.dfy`, `Runs.dfy` | which types, and which runs of values, are decoded to what was written |
| `StructVectors.dfy` | a vector of structs turned into a struct of vectors |
| `Chunks.dfy`, `Containers.dfy`, `Progress.dfy` | references, groups, unswept values, sections and their indexes, consumption |
| `Grammar.dfy` | the parsers accept exactly the encodings |
| `Traces.dfy` | trace names and the two-level lookup |
| `Offsets.dfy`, `Sweeps.dfy`, `SweepLaws.dfy` | the offset map, the two sweep decoders, laws on arbitrary input |
| `SweepTables.dfy`, `WindowSlots.dfy` | round trips of a table in both layouts, window slots, layout equivalence |
| `Witnesses.dfy`, `ReadBack.dfy` | tables to test a decoder with, and the exact conditions of the round trips |
| `Sections.dfy`, `File.dfy`, `FileRoundTrip.dfy`, `EndToEnd.dfy` | section table, whole files, from a table to bytes and back by signal name |
| `Unswept.dfy` | unswept values that are not read back |
| `Format.dfy` | the format in numbers: which words select what, and what is refused |
| `Literal.dfy`, `Example.dfy`, `ExamplePoints.dfy`, `ExampleScalars.dfy` | three files written out byte by byte, and what the library returns for them |

`dafny verify dfyconfig.toml` checks everything.

## Main results

- **Sweeps.** Let every trace have a slot and an identifier of its own and let the table have a column of the right
  type for each. Written point by point, or in windows that hold their values (any split into 1 to 65535 points, any
  padding, "PSF traces" counting the group members), the table decodes to exactly its parameter column and the
  columns of any selected traces (`WindowedTableRoundTrip`, `SimpleTableRoundTrip`), and the two layouts cannot be
  told apart (`LayoutsEquivalent`). This asks that the parameter has no complex number inside a struct and that the
  selected traces are readable; the types of other traces do not matter. The condition is exact: if it fails,
  the vectors of some table are not returned (`WindowedReadBackExactly`, `SimpleReadBackExactly`). A type is readable
  if no struct in it holds a complex number, or if no scalar of it survives later fields of the same name; for one
  value at a time it is enough that every surviving scalar stands before the first complex number. Where everything is readable, the count in
  "PSF traces" has to be right (`CountReadBackExactly`).
- **Any input.** The filter influences nothing but the choice of columns (`WindowedFilterIndependence`,
  `SimpleFilterIndependence`), and a decode succeeds for a filter exactly if it does for each of its traces and for
  none (`WindowedSucceedsExactly`, `SimpleSucceedsExactly`).
- **Files.** A file of distinct sections in any order is read back whole (`FileIsReadBack`), if it is smaller than
  2 GiB, has a header, holds swept values exactly when it has a sweep section, pads them exactly when the header has
  a window size, can lay out its traces, and has no complex number inside a struct among unswept values. Opened,
  it returns a stored table's parameter, and the column of every readable trace that its name leads to
  (`SignalsReadBack`). These are, with distinct trace names, all traces at the top level and in the first group that no
  group of the same name hides (`ListedSignalsReadBack`). The first word of a file, padding bytes and array type words
  may be anything, and each part of a file may have its own. All unswept values of a type are read back exactly
  if no struct of the type holds a complex number (`ValueReadBackExactly`); a file in which the first value of
  another type is zero does not open (`ComplexScalarsDoNotOpen`).
- **Types and values.** A definition, reference, group or property block is parsed from exactly the bytes that encode
  it, up to array type words, padding and a negative member count (`TypeDefExactly`, `RefExactly`, `GroupExactly`,
  `PropertiesExactly`). A decoded value falls short of its promised size by exactly 8 bytes per complex number inside
  a struct (`DataConsumes`), so value and end are right for all data exactly for types without one
  (`RoundTripExactly`, with `ComplexFieldMisread` as a failing input). The value alone is right for all data exactly
  if every scalar that no later field of its name replaces stands before the first complex number
  (`ReadsBackExactly`).
- **Lookup.** Indexes lead to the last child with a key, which is the first one exactly when the key is unique
  (`NameIndexAgrees`, `IdIndexAgrees`). With distinct trace names, every listed name finds its trace exactly when all
  groups but the first are empty and no group hides a trace of its name (`ListedNamesFoundExactly`), and is indexed
  exactly when there is at most one group or no group has members, and no group hides a trace
  (`ListedNamesIndexedExactly`). `ListedButNotFound` has a failing section for each of the two reasons.
- **Numbers.** Round trips cannot notice a constant that encoder and parser share. `Format.dfy` therefore states in
  numbers which words select what and what is refused (`TypeWord`, `ChildTags`, `SectionNumbers`, `OpenedIfMarked`),
  and three files given as literal bytes are proved to open to their literal contents, names and values: one in
  windows, one point by point with its sections in reverse order, and one of unswept values (`ExampleReadsBack`,
  `PointsReadBack`, `ExampleScalars.ScalarsReadBack`).

## Where the code differs from its documentation

- doc/psfformat.rst names a signature word of 512; the code never looks at it, and neither does the model.
- doc/psfformat.rst marks only the sweep and trace sections optional; the code also opens a file without types or
  values, and parses a file whose table names no header from offset 0.

## Model

| member | source | states |
|---|---|---|
| Words.StringAt | src/psfdata.cc:156-164 | an encoded string is read back, and its padding to a word boundary is skipped, whatever it is |
| Format.BigEndian | src/psfinternal.h:34-35 | words, 8-bit integers and doubles as bytes |
| Format.StringBytes | src/psfdata.cc:156-164 | a count, the characters, and padding to a multiple of 4 |
| Properties.DeserializeProperty | src/psfproperty.cc:18-44 | the cursor method equals the grammar of a tagged string, int or double property |
| Properties.PropertiesRoundTrip | src/psfpropertyblock.cc:51-67 | a block followed by any word outside 33..35 is read back whole and the parser stops at its end |
| Properties.PropertyBlock.Deserialize | src/psfpropertyblock.cc:51-67 | appends exactly the parsed properties, keeps list and map consistent, returns the end |
| Properties.PropertyBlock.AppendProp | src/psfpropertyblock.cc:42-49 | the list grows by the property and the map keeps agreeing with the list |
| Properties.PropertyBlock.HasProp | src/psfpropertyblock.cc:21-28 | true exactly for names that were appended |
| Properties.PropertyBlock.FindProp | src/psfpropertyblock.cc:31-40 | the first property of the name; running off the list is undefined |
| Properties.FindIsLast | src/psfpropertyblock.cc:7-49 | find returns the last value appended, fails exactly for names never appended, and agrees with findprop exactly when first and last values are equal |
| Properties.FindIntExactly | src/psfpropertyblock.cc:7-19 | the number found under a name is that of the last property of the name; without one the lookup fails |
| Types.DeserializeTypeDef | src/psftype.cc:14-38 | equals the type grammar, and the size it records is the size of the tree it returns |
| Types.DeserializeStructDef | src/psfstruct.cc:14-28 | the loop reads the fields up to the end marker, and the accumulated size is the sum over the fields |
| Format.TypeWord | include/psfdata.h:23-29 | type words 1, 5, 11, 12 and 16 select the five kinds of body, any other is refused, and the word in front is skipped |
| Format.FieldWords | src/psfstruct.cc:5-28 | fields start with 16 and end with 18 |
| Types.TypeRoundTrip | src/psftype.cc:14-38 | every nested definition is read back, whatever array type words and padding were written, and consumes exactly its encoding |
| Grammar.TypeDefExactly | src/psftype.cc:14-38 | a definition is accepted from given bytes if and only if they encode it, with some array type words and padding, and no property follows |
| Grammar.PropertiesExactly | src/psfpropertyblock.cc:51-67 | a block is accepted if and only if the bytes encode it and the next word is not a property tag |
| Grammar.RefExactly | src/psftype.cc:120-133 | the same for a reference |
| Grammar.GroupExactly | src/psfgroup.cc:5-25 | the same for a group; an empty one may carry a negative count and be followed by anything |
| Types.FieldsRoundTrip | src/psfstruct.cc:5-28 | field lists are read back up to the marker, because tags of fields, markers and properties do not overlap |
| Values.DeserializeData | src/psftype.cc:55-76 | the dispatch on the type identifier equals the decoding function |
| Values.DeserializeStruct | src/psfdata.cc:28-44 | the field loop equals folding the fields into a member map, a later field of the same name replacing an earlier one |
| Values.DeserializeScalar | src/psfdata.cc:94-178 | a field is decoded by the scalar its definition creates |
| Values.DataConsumes | src/psftype.cc:55-76 | bytes consumed are the promised size less 8 per complex leaf inside a struct, for every type tree |
| Values.ScalarConsumes | src/psfdata.cc:94-178 | the same for a field of a struct, where every complex leaf counts |
| Values.FieldsConsume | src/psfdata.cc:28-44 | the same for a field list, by induction over the tree |
| Values.DatumRoundTrip | src/psftype.cc:55-76 | data of a type without complex numbers inside structs decodes to what was encoded |
| Values.ItemsRoundTrip | src/psfdata.cc:28-44 | so do the fields of a struct, repeated names included |
| Values.RoundTripExactly | src/psfdata.cc:140-145 | decoding inverts encoding for all data of a type if and only if no struct in it holds a complex number |
| Values.ComplexFieldDecodes | src/psfdata.cc:142-145 | a complex field (re, im) is decoded to (re, 0), 8 bytes behind its start |
| Values.ComplexFieldMisread | src/psfdata.cc:140-145 | behind a complex field (re, im), an integer field is read from the high half of im |
| Legibility.ReadsBackExactly | src/psfdata.cc:28-44 | the value of all data of a type is decoded as written if and only if each surviving scalar stands before the first complex number |
| Legibility.LegibleWithDistinctNames | src/psfdata.cc:140-145 | without repeated field names that means no complex number inside a struct |
| Legibility.MisplacedFields | src/psfdata.cc:140-145 | data for which a struct type that fails the condition is decoded to other members |
| Runs.ReadableRunAt | src/psfsweepvalue.cc:213-214 | consecutive values of a readable run fill their cells with what was written |
| Runs.UnreadableRunAt | src/psfsweepvalue.cc:213-214 | a run that is not readable is decoded to other cells for some data |
| StructVectors.VectorStruct.InitFromStructDef | src/psfdata.cc:66-74 | one empty vector per field name, of the type of the last definition with that name |
| StructVectors.VectorStruct.CopyFromStructVector | src/psfdata.cc:76-92 | succeeds exactly when every struct fits the columns, and then the columns are the transpose |
| StructVectors.VectorStruct.CopyColumn | src/psfdata.cc:78-87 | one column holds the structs' values under its key, in order |
| StructVectors.Invert | src/psfdata.cc:61-64 | for structs of one definition: exactly its keys, the j-th row is the j-th struct |
| StructVectors.DecodedStructHasShape | src/psfdata.cc:28-44 | every decoded struct has the shape that makes the inversion succeed |
| StructVectors.TransposeBack | src/psfdata.cc:76-92 | columns have the vector's length and transposing them again gives the structs |
| Chunks.DeserializeGroup | src/psfgroup.cc:5-25 | equals the group grammar; the name and identifier indexes are those of the members |
| Chunks.DeserializeMembers | src/psfgroup.cc:16-20 | the loop over the member count reads references only and indexes each name by its last position |
| Chunks.CreateValueIndexMap | src/psfgroup.cc:59-63 | maps each identifier to the last member carrying it |
| Chunks.DeserializeRef | src/psftype.cc:120-133 | equals the grammar of a type reference |
| Chunks.DeserializeValue | src/psfnonsweepvalue.cc:31-48 | equals the grammar of an unswept value, decoded by the type its identifier names |
| Chunks.DeserializeChild | src/psfcontainer.cc:14-28 | the tag selects the child by the kind of section, end markers yield none, other tags are refused |
| Format.ChildTags | src/psfcontainer.cc:14-28 | the tags each kind of section accepts, what they select, under which identifier and name it is indexed, and what ends a section |
| Chunks.RefRoundTrip | src/psftype.cc:120-133 | a reference is read back |
| Chunks.GroupRoundTrip | src/psfgroup.cc:5-25 | a group is read back with all members |
| Chunks.ValueRoundTrip | src/psfnonsweepvalue.cc:31-48 | an unswept value is read back as the meaning of its data |
| Chunks.ChunkRoundTrip | src/psfcontainer.cc:14-28 | every chunk a section may hold is read back by that section |
| Containers.DeserializeChildren | src/psfcontainer.cc:64-71 | children are read up to the bound or an end marker |
| Containers.SimpleContainer.Deserialize | src/psfcontainer.cc:56-74 | appends the children of the section and returns the position after them |
| Containers.HeaderSection.Deserialize | src/psfsections.cc:16-25 | the property block holds the header's properties in order |
| Containers.IndexedContainer.Deserialize | src/psfindexedcontainer.cc:46-89 | the children are stored and both indexes agree with them |
| Containers.IndexedContainer.GetChildById | src/psfindexedcontainer.cc:98-100 | the last child with the identifier |
| Containers.IndexedContainer.GetChildByName | src/psfindexedcontainer.cc:102-109 | the last child with the name, or not found |
| Containers.IndexedContainer.GetChildIndex | src/psfindexedcontainer.cc:111-118 | the position of the last child with the name, or -1 |
| Containers.LinearGetChild | src/psfcontainer.cc:36-41 | the first child with the name |
| Containers.LinearGetChildById | src/psfcontainer.cc:30-35 | the first child with the identifier |
| Containers.ListNames | src/psfcontainer.cc:43-50 | the names of all children in order |
| Containers.NameIndexAgrees | src/psfindexedcontainer.cc:81-118 | name lookup is the last occurrence; it equals the first exactly when the name is unique |
| Containers.IdIndexAgrees | src/psfindexedcontainer.cc:81-100 | the same for identifiers |
| Containers.GroupsShareAnId | src/psfinternal.h:105 | groups and unswept values share identifier -1, so the index keeps only the last of them |
| Containers.ChildrenRoundTrip | src/psfcontainer.cc:64-71 | a list of children is read back whatever bounds it |
| Containers.SimpleRoundTrip | src/psfcontainer.cc:56-74 | a section closed by an end marker or by its end position is read back |
| Containers.IndexedRoundTrip | src/psfindexedcontainer.cc:46-89 | an indexed section is read back, whatever its index entries |
| Format.SectionTags | src/psfindexedcontainer.cc:46-64 | sections start with 21, but for unswept values, and 22 precedes the children |
| Format.SkippedTags | src/psfindexedcontainer.cc:5-44 | an index starts with 19, zero padding with 20 |
| Format.IndexedParts | src/psfindexedcontainer.cc:46-76 | the head says where children and section end, and an index follows the children |
| Format.LastTypeKept | src/psfindexedcontainer.cc:78-99 | of definitions with the same identifier the last is used |
| Progress.TypeDefProgress | src/psftype.cc:14-38 | a definition takes whole words, ends inside the file, and describes data no larger than itself |
| Progress.ChildProgress | src/psfcontainer.cc:14-28 | every child, end markers included, consumes a positive number of whole words |
| Progress.ChildrenProgress | src/psfcontainer.cc:64-71 | the cursor stays word-aligned and moves at least a word per child |
| Progress.PropertiesAligned | src/psfpropertyblock.cc:51-67 | property blocks take whole words and stop inside the file |
| Traces.GetNames | src/psftrace.cc:16-29 | the names of all traces in order, group members in place |
| Traces.GetTraceByName | src/psftrace.cc:31-43 | top level first, then the first group only; a group of that name is a bad cast |
| Traces.GetTraceIndexByName | src/psftrace.cc:45-65 | a top-level position, or a pair for every group, failing if one lacks the name |
| Traces.IndexLeadsToName | src/psftrace.cc:45-79 | in every section an index found for a name leads to the trace found by the name |
| Traces.GroupedNameFoundExactly | src/psftrace.cc:31-65 | a name absent from the top level is found exactly if the first group has it, and indexed exactly if every group has it |
| Traces.LeafLookup | src/psftrace.cc:16-43 | what each listed name finds: a bad cast if a group of that name hides the trace, else the trace, unless it sits in a later group |
| Traces.ListedNamesFoundExactly | src/psftrace.cc:16-43 | distinct listed names are all found if and only if all groups but the first are empty and no group hides a trace |
| Traces.ListedNamesIndexedExactly | src/psftrace.cc:16-79 | distinct listed names are all indexed if and only if there is one group at most or no group has members, and no group hides a trace |
| Traces.ListedButNotFound | src/psftrace.cc:36-40 | two sections with a listed name that is not found: in a second group, and hidden by its own group |
| Offsets.FillOffsetMap | src/psfgroup.cc:44-57 | enters the members' slots from the start offset on and returns their total size |
| Offsets.OffsetMap.Create | src/psfsweepvalue.cc:15-63 | the map holds the slots of the layout of the trace section, and the value size is the size of the layout |
| Offsets.EnterChild | src/psfsweepvalue.cc:27-61 | one top-level trace or group, its 8-byte header, the missing key and the sweep among the traces |
| Format.TopLevelRefused | src/psfsweepvalue.cc:29-57 | a top-level trace without "key" in its type, of unknown type, or in windows stops the layout |
| Format.SweepKey | src/psfsweepvalue.cc:48-54 | only the last "key" being "sweep" makes a top-level trace take no room |
| Offsets.Packing | src/psfsweepvalue.cc:15-63 | with distinct identifiers the slots are entered at pairwise disjoint places inside the layout |
| SweepTables.OffsetMapPacks | src/psfsweepvalue.cc:15-63 | the slots of any two traces are disjoint and inside the value size, in both layouts |
| Sweeps.DeserializeInto | src/psfsweepvalue.cc:213-214 | consecutive values are written cell by cell, each cell bounds-checked |
| Sweeps.DeserializeColumn | src/psfsweepvalue.cc:207-214 | the pointer into a trace's slot and the values copied from it |
| Format.UnplacedRefused | src/psfsweepvalue.cc:131-133 | a trace without an offset is not decoded |
| Sweeps.SweepValue.FillData | src/psfsweepvalue.cc:204-215 | the columns of the filter are replaced, the others untouched |
| Sweeps.SweepValue.DeserializeWindow | src/psfsweepvalue.cc:189-219 | one window: tag, count, appended parameters, columns, and the stride to the next window |
| Format.WindowHead | src/psfsweepvalue.cc:189-195 | a window starts with 16, and two bytes count its points |
| Sweeps.SweepValue.DeserializeWindowed | src/psfsweepvalue.cc:167-222 | the loop over windows from any earlier state of the object |
| Sweeps.SweepValue.DeserializePoint | src/psfsweepvalue.cc:246-267 | one point: tag, parameter identifier, parameter, columns, and the stride to the next point |
| Format.PointHead | src/psfsweepvalue.cc:246-253 | a point starts with 16 and the identifier of the parameter |
| Sweeps.SweepValue.DeserializeSimple | src/psfsweepvalue.cc:224-271 | the loop over points, new columns behind those the object already holds |
| SweepLaws.WindowedFilterIndependence | src/psfsweepvalue.cc:167-222 | on any input, a selection from the filter decodes to that selection of columns, with equal parameters and end |
| SweepLaws.SimpleFilterIndependence | src/psfsweepvalue.cc:224-271 | the same point by point |
| SweepLaws.WindowedSucceedsExactly | src/psfsweepvalue.cc:204-215 | a windowed decode succeeds for a filter exactly if it does for each trace alone and for none |
| SweepLaws.SimpleSucceedsExactly | src/psfsweepvalue.cc:259-267 | the same point by point |
| SweepLaws.WindowedLengths | src/psfsweepvalue.cc:188-220 | on any input, a successful decode yields columns of exactly the asked length, and as many parameters if a trace is selected |
| SweepLaws.SimpleAdvance | src/psfsweepvalue.cc:245-270 | on any input, the cursor moves by points times (8 + parameter + value size), whatever the filter |
| SweepLaws.WindowedAppends | src/psfsweepvalue.cc:174-199 | on an object that is used again, parameters are appended and columns replaced |
| SweepLaws.SimpleAppends | src/psfsweepvalue.cc:224-243 | point by point, parameters are appended as well |
| SweepLaws.SimpleKeepsColumns | src/psfsweepvalue.cc:224-243 | columns of an earlier decode stay in front and are overwritten, and the new ones keep their initial zeros |
| SweepTables.TraceDataAt | src/psfsweepvalue.cc:209-211 | the decoder's pointer lands on the first byte of the selected trace's values |
| SweepTables.WindowRoundTrip | src/psfsweepvalue.cc:189-219 | a window extends parameters and columns by exactly its rows |
| SweepTables.WindowedTableRoundTrip | src/psfsweepvalue.cc:167-222 | the windowed round trip, for every split, every trace's padding and every filter of readable traces |
| SweepTables.PointRoundTrip | src/psfsweepvalue.cc:246-267 | a point extends parameters and columns by exactly its row |
| SweepTables.SimpleTableRoundTrip | src/psfsweepvalue.cc:224-271 | the point-by-point round trip, for any mix of traces and groups and every filter of readable traces |
| ReadBack.WindowedReadBackExactly | src/psfsweepvalue.cc:167-222 | the vectors of every table in windows are returned for a filter if and only if parameter and selected traces are readable for as many points as fit a window |
| ReadBack.LaggingWindows | src/psfsweepvalue.cc:189-219 | behind a parameter with a complex number inside a struct, the tag of the second window is missed |
| ReadBack.CountReadBackExactly | src/psfsweepvalue.cc:171-172 | readable tables in windows are all returned if and only if "PSF traces" counts the group members |
| ReadBack.SimpleReadBackExactly | src/psfsweepvalue.cc:224-271 | point by point, if and only if they are readable one at a time |
| ReadBack.LaggingPoints | src/psfsweepvalue.cc:245-257 | a parameter with a complex number inside a struct makes the cursor lag at every point until a tag is looked for in zeros |
| Witnesses.PlacedApart | src/psfsweepvalue.cc:27-61 | a layout with distinct slots belongs to traces with distinct identifiers |
| WindowSlots.WindowLayout | src/psfsweepvalue.cc:24-35 | windows can be laid out exactly for sections of groups, one slot per listed trace |
| WindowSlots.WindowedSetupIsLaid | src/psfsweepvalue.cc:171-172 | the stride agrees with the offset map if and only if "PSF traces" counts the group members |
| WindowSlots.SlotContainment | src/psfsweepvalue.cc:204-218 | the i-th name's slot is at i windows sizes; values end with it and stay inside exactly if they fit |
| WindowSlots.ZeroWindowLayout | src/psfgroup.cc:49-54 | window size 0 falls back to cumulative sizes: a point without its group headers |
| WindowSlots.LayoutsEquivalent | src/psfsweepvalue.cc:143-148 | the choice of decoder is unobservable on well-formed grouped data |
| Sections.DeserializeSections | src/psffile.cc:36-62 | the loop over the section table, each entry closing the one before |
| Sections.SectionTableRoundTrip | src/psffile.cc:36-62 | the table of a written file leads to exactly its sections |
| Sections.SizesTelescope | src/psffile.cc:50-62 | recovered sizes add up to the file size less the first offset, whatever the order of the sections |
| Sections.WrittenSizesTelescope | src/psffile.cc:50-62 | in a written file they account for every byte after the signature |
| Format.CountWraps | src/psffile.cc:36-50 | the number of table entries in unsigned words |
| Format.DistanceWraps | src/psffile.cc:50-62 | section sizes as signed words |
| File.ValueSectionSweep.Deserialize | src/psfsweepvalue.cc:108-128 | tag, zero padding if windowed, the offset map, and where values start |
| File.ValueSectionSweep.GetValues | src/psfsweepvalue.cc:65-76 | a new value decoded from the start of the section by the decoder the header selects |
| FileRoundTrip.WindowFound | src/psfsweepvalue.cc:7-13 | values are windowed if and only if the header has a property "PSF window size" |
| Format.NumbersNeeded | src/psfsweepvalue.cc:167-172 | without "PSF sweep points", or in windows "PSF traces", a decode fails |
| File.PSFFile.Open | src/psffile.cc:36-112 | the open file's contents are those of its parsed sections |
| Format.OpenedIfMarked | src/psffile.cc:98-137 | a file is read if and only if "Clarissa" stands before its last word |
| Format.SectionNumbers | src/psffile.cc:64-95 | which section number holds what |
| Format.NoHeader | src/psffile.cc:64-65 | without a header the first word of the file has to be a section tag |
| Format.TableEntries | src/psffile.cc:38-63 | the table is in front of the mark, two words an entry, and the last entry of a number counts |
| File.PSFFile.DeserializeHeader | src/psffile.cc:64-65 | the header is parsed at its offset, or at 0 if the table has none |
| File.PSFFile.DeserializeValues | src/psffile.cc:86-94 | values are swept exactly if there is a sweep section |
| File.PSFFile.GetValues | src/psffile.cc:155-160 | the signal of a name, nothing for a file without swept values |
| File.PSFFile.GetParamValues | src/psffile.cc:148-153 | the parameters of a decode with an empty filter |
| File.PSFFile.GetValue | src/psffile.cc:167-170 | the unswept value of a name |
| File.PSFFile.ListSignals | src/psffile.cc:172-178 | trace names, or value names without a trace section |
| FileRoundTrip.FileIsReadBack | src/psffile.cc:36-96 | a writable file of distinct sections in any order is read back whole |
| EndToEnd.RunOfFile | src/psfsweepvalue.cc:171-178 | the first of the written sweeps is the parameter, and the header gives window size and number of points |
| EndToEnd.DefinitionsWritten | src/psfindexedcontainer.cc:81-100 | the definition under an identifier is the last one written with it |
| EndToEnd.TableReadsBack | src/psfsweepvalue.cc:65-76 | one decode of a written file's value section gives the table's parameters and columns |
| EndToEnd.SignalsReadBack | src/psffile.cc:148-160 | every trace its name leads to is returned as its column, the parameter as the parameter column |
| EndToEnd.ListedSignalsReadBack | src/psfsweepvalue.cc:78-93 | with distinct trace names this covers every listed trace outside later groups that no group hides |
| EndToEnd.SignalsAreProjections | src/psfsweepvalue.cc:78-105 | on any file, signals and parameters are projections of one full decode |
| EndToEnd.NamesListed | src/psffile.cc:172-178 | the names listed for a written file are those of its traces, group members in place, or else of its unswept values |
| EndToEnd.NothingSwept | src/psffile.cc:148-160 | a written file without sweeps returns no signal and no parameter, and one with sweeps no single value |
| Example.ExampleReadsBack | src/psffile.cc:36-178 | literal bytes of a windowed file are opened to literal contents, names and values |
| ExamplePoints.PointsReadBack | src/psffile.cc:36-178 | the same point by point, with "PSF traces" in the header, two sweeps, a sweep among the traces, a top-level trace and a group |
| ExampleScalars.ScalarsReadBack | src/psffile.cc:36-178 | the same for unswept values: a struct, and two values of one name |
| EndToEnd.ScalarsReadBack | src/psfnonsweepvalue.cc:17-19 | in a file of unswept values a name leads to the value last written under it |
| Unswept.ValueReadBackExactly | src/psfnonsweepvalue.cc:31-48 | all values of a type are read back if and only if no struct of it holds a complex number |
| Unswept.ZeroValueParsed | src/psfnonsweepvalue.cc:44-46 | for a zero value of another type, properties are looked for inside the value |
| Unswept.ComplexScalarsDoNotOpen | src/psffile.cc:86-94 | a file in which such a value follows readable ones does not open |

## Left out

- Opening and mapping the file, closing it, the data set wrapper of src/psf.cc, and the bindings: the bytes are given.
- Printing, `tostring` of numbers, `atoi`/`atof` and floating-point arithmetic: a header count that is not an integer property gives `NotModelled`.
- Overflow of C `int` in offsets and products such as `ntraces * windowsize`: positions are unbounded integers; words, 16-bit point counts, signed identifiers and the unsigned section arithmetic are modelled exactly.
- Memory ownership, copying and aliasing: parsed chunks are values, and an object that throws half-way is not inspected afterwards.
- `get_param_names` and `get_value_properties`: lists that are parsed and kept, but not queried here.
- Straight-line `deserialize` members of properties, references, groups and values return the fields they would set instead of setting them on an object.
- The cells of a new vector of 8-bit integers, which the library leaves uninitialised, start at 0; every round trip overwrites them.
- The contents of index entries are skipped by their size, as the library discards them.
- The order in which a struct's columns are copied: any order, where the library takes the order of the names.
- The byte-wise iterator over sweep values, the older reader and the raw test reader: not used by any decode path.
- Endless loops: an empty window whose stride leaves the cursor exactly where it was is the error `NoProgress`; the library reads it again for ever. A stride that moves the cursor back is followed as in the library, up to a read outside the file.
- ReadBack.CountReadBackExactly: leaves out negative counts for which parameter and stride together make -8, because they can lead the decoder back to the window it has just read, whose tag is in place.
