/** A file of unswept values, written out byte by byte: a struct, and two complex numbers under one name. */
module ExampleScalars {
  import opened Base
  import opened Words
  import opened Properties
  import opened Types
  import opened Values
  import opened Chunks
  import opened Containers
  import opened Sections
  import opened File
  import opened FileRoundTrip
  import opened Literal

  // ---------------------------------------------------------------- the file

  // Property "h" = "w".
  const H0: Bytes := [0, 0, 0, 33] + (([0, 0, 0, 1] + [104] + [0, 0, 0]) + ([0, 0, 0, 1] + [119] + [0, 0, 0]))

  // Type 5, "s", a struct of an 8-bit integer "a", a struct "c" of a 32-bit integer "d", and a double "b".
  const F0: Bytes :=
    [0, 0, 0, 16] + ([0, 0, 0, 1] + (([0, 0, 0, 1] + [97] + [0, 0, 0]) + ([0, 0, 0, 0] + [0, 0, 0, 1])))
  const FD: Bytes :=
    [0, 0, 0, 16] + ([0, 0, 0, 3] + (([0, 0, 0, 1] + [100] + [0, 0, 0]) + ([0, 0, 0, 0] + [0, 0, 0, 5])))
  const F1: Bytes :=
    ([0, 0, 0, 16] + ([0, 0, 0, 2] + (([0, 0, 0, 1] + [99] + [0, 0, 0]) + ([0, 0, 0, 0] + [0, 0, 0, 16])))) + (FD
    + [0, 0, 0, 18])
  const F2: Bytes :=
    [0, 0, 0, 16] + ([0, 0, 0, 4] + (([0, 0, 0, 1] + [98] + [0, 0, 0]) + ([0, 0, 0, 0] + [0, 0, 0, 11])))
  const T0: Bytes :=
    ([0, 0, 0, 16] + ([0, 0, 0, 5] + (([0, 0, 0, 1] + [115] + [0, 0, 0]) + ([0, 0, 0, 0] + [0, 0, 0, 16])))) + ((F0
    + (F1 + F2)) + [0, 0, 0, 18])

  // Type 6, "z", of complex numbers.
  const T1: Bytes :=
    [0, 0, 0, 16] + ([0, 0, 0, 6] + (([0, 0, 0, 1] + [122] + [0, 0, 0]) + ([0, 0, 0, 0] + [0, 0, 0, 12])))

  // Values "x" of type 5 with a property "u" = "v", and twice "y" of type 6.
  const V0: Bytes :=
    [0, 0, 0, 16] + ([0, 0, 0, 1] + (([0, 0, 0, 1] + [120] + [0, 0, 0]) + ([0, 0, 0, 5] + (([0, 0, 0, 255]
    + ([255, 255, 255, 251] + ([0, 0, 0, 0] + [0, 0, 0, 9]))) + ([0, 0, 0, 33] + (([0, 0, 0, 1] + [117] + [0, 0, 0])
    + ([0, 0, 0, 1] + [118] + [0, 0, 0])))))))
  const V1: Bytes :=
    [0, 0, 0, 16] + ([0, 0, 0, 2] + (([0, 0, 0, 1] + [121] + [0, 0, 0]) + ([0, 0, 0, 6] + (([0, 0, 0, 0]
    + [0, 0, 0, 3]) + ([0, 0, 0, 0] + [0, 0, 0, 4])))))
  const V2: Bytes :=
    [0, 0, 0, 16] + ([0, 0, 0, 3] + (([0, 0, 0, 1] + [121] + [0, 0, 0]) + ([0, 0, 0, 6] + (([0, 0, 0, 0]
    + [0, 0, 0, 5]) + ([0, 0, 0, 0] + [0, 0, 0, 6])))))

  const HEADER_BYTES := [0, 0, 0, 21, 0, 0, 0, 36] + (H0 + [0, 0, 0, 1])
  const TYPE_BYTES :=
    [0, 0, 0, 21, 0, 0, 0, 212, 0, 0, 0, 22, 0, 0, 0, 204] + ((T0 + T1) + [0, 0, 0, 19, 0, 0, 0, 0])
  const VALUE_BYTES :=
    [0, 0, 0, 21, 0, 0, 1, 108, 0, 0, 0, 22, 0, 0, 1, 100] + ((V0 + (V1 + V2)) + [0, 0, 0, 19, 0, 0, 0, 0])
  const TABLE_BYTES: Bytes :=
    [0, 0, 0, 0, 0, 0, 0, 4] + ([0, 0, 0, 1, 0, 0, 0, 36] + [0, 0, 0, 4, 0, 0, 0, 212])

  function FileBytes(): Bytes {
    [0, 0, 0, 0] + ((HEADER_BYTES + (TYPE_BYTES + VALUE_BYTES))
      + (TABLE_BYTES + ([67, 108, 97, 114, 105, 115, 115, 97] + [0, 0, 1, 108])))
  }

  // ---------------------------------------------------------------- its contents

  const HEADER: seq<Property> := [Property([104], Text([119]))]
  const FIELD_A := TypeDef(1, [97], Int8, [])
  const FIELD_D := TypeDef(3, [100], Int32, [])
  const FIELD_C := TypeDef(2, [99], Struct([FIELD_D]), [])
  const FIELD_B := TypeDef(4, [98], Double, [])
  const STRUCT := TypeDef(5, [115], Struct([FIELD_A, FIELD_C, FIELD_B]), [])
  const COMPLEX := TypeDef(6, [122], ComplexDouble, [])
  const DATUM := StructDatum([Int8Datum(255), StructDatum([Int32Datum(-5)]), DoubleDatum(9)])
  const NOTE := Property([117], Text([118]))
  const X: Chunk<Datum> := ValueChunk(1, [120], 5, DATUM, [NOTE])
  const Y: Chunk<Datum> := ValueChunk(2, [121], 6, ComplexDatum(3, 4), [])
  const Y_AGAIN: Chunk<Datum> := ValueChunk(3, [121], 6, ComplexDatum(5, 6), [])
  const TYPES: TypeTable := map[5 := STRUCT, 6 := COMPLEX]

  const STRUCT_VALUE := StructValue(
    map[[97] := Int8Value(-1), [99] := StructValue(map[[100] := Int32Value(-5)]), [98] := DoubleValue(9)])

  function Sources(): (r: seq<Source>)
    ensures |r| == 3
  {
    [HeaderSource(HEADER, true), TypeSource([STRUCT, COMPLEX], []), UnsweptSource([X, Y, Y_AGAIN], [])]
  }

  /** The opened file. */
  const MODEL := FileModel(
    HEADER, Some([TypeChunk(STRUCT), TypeChunk(COMPLEX)]), None, None, None,
    Some([ValueChunk(1, [120], 5, STRUCT_VALUE, [NOTE]), ValueChunk(2, [121], 6, ComplexValue(3, 4), []),
          ValueChunk(3, [121], 6, ComplexValue(5, 6), [])]))

  // ---------------------------------------------------------------- the bytes are those of the contents

  lemma SmallWords()
    ensures EncInt(-5) == [255, 255, 255, 251] && EncInt(0) == [0, 0, 0, 0]
    ensures EncInt(1) == [0, 0, 0, 1] && EncInt(2) == [0, 0, 0, 2]
    ensures EncInt(3) == [0, 0, 0, 3] && EncInt(4) == [0, 0, 0, 4]
    ensures EncInt(5) == [0, 0, 0, 5] && EncInt(6) == [0, 0, 0, 6]
    ensures EncInt(11) == [0, 0, 0, 11] && EncInt(12) == [0, 0, 0, 12]
    ensures EncInt(16) == [0, 0, 0, 16] && EncInt(33) == [0, 0, 0, 33]
    ensures EncInt(255) == [0, 0, 0, 255]
    ensures EncWord(18) == [0, 0, 0, 18]
  {
  }

  lemma HeaderBytes()
    ensures EncProperty(HEADER[0], Nothing) == H0
  {
    hide EncInt, EncString;
    SmallWords();
    StringBytes([104]);
    StringBytes([119]);
  }

  lemma {:induction false} MoreFields(field: TypeDef, rest: seq<TypeDef>)
    ensures EncFields([field] + rest, Nothing) == EncTypeDef(field, Nothing) + EncFields(rest, Nothing)
    ensures rest == [] ==> EncFields([field] + rest, Nothing) == EncTypeDef(field, Nothing)
  {
    hide EncTypeDef;
    assert ([field] + rest)[1..] == rest;
  }

  lemma ScalarFieldBytes()
    ensures EncTypeDef(FIELD_A, Nothing) == F0 && EncTypeDef(FIELD_D, Nothing) == FD
            && EncTypeDef(FIELD_B, Nothing) == F2
    ensures EncTypeDef(COMPLEX, Nothing) == T1
  {
    hide EncInt, EncString;
    SmallWords();
    StringBytes([97]);
    StringBytes([98]);
    StringBytes([100]);
    StringBytes([122]);
  }

  lemma StructFieldBytes()
    ensures EncTypeDef(FIELD_C, Nothing) == F1
  {
    hide EncInt, EncString, EncFields;
    SmallWords();
    StringBytes([99]);
    ScalarFieldBytes();
    MoreFields(FIELD_D, []);
    assert [FIELD_D] + [] == [FIELD_D];
    NoProperties();
  }

  lemma NoProperties()
    ensures EncProperties([], Nothing) == []
  {
  }

  lemma StructBytes()
    ensures EncTypeDef(STRUCT, Nothing) == T0
  {
    hide EncInt, EncString, EncFields, EncTypeDef, FIELD_A, FIELD_B, FIELD_C, F0, F1, F2, EncTypeHead;
    StructParts();
    ScalarFieldBytes();
    StructFieldBytes();
    MoreFields(FIELD_B, []);
    MoreFields(FIELD_C, [FIELD_B] + []);
    MoreFields(FIELD_A, [FIELD_C] + ([FIELD_B] + []));
    assert [FIELD_A] + ([FIELD_C] + ([FIELD_B] + [])) == [FIELD_A, FIELD_C, FIELD_B];
  }

  lemma StructParts()
    ensures EncTypeDef(STRUCT, Nothing)
         == ([0, 0, 0, 16] + ([0, 0, 0, 5] + (([0, 0, 0, 1] + [115] + [0, 0, 0]) + ([0, 0, 0, 0] + [0, 0, 0, 16]))))
            + (EncFields([FIELD_A, FIELD_C, FIELD_B], Nothing) + [0, 0, 0, 18])
  {
    hide EncInt, EncString, EncFields, FIELD_A, FIELD_B, FIELD_C;
    SmallWords();
    StringBytes([115]);
    NoProperties();
  }

  lemma DatumBytes()
    ensures EncDatum(DATUM) == [0, 0, 0, 255] + ([255, 255, 255, 251] + ([0, 0, 0, 0] + [0, 0, 0, 9]))
    ensures EncDatum(ComplexDatum(3, 4)) == ([0, 0, 0, 0] + [0, 0, 0, 3]) + ([0, 0, 0, 0] + [0, 0, 0, 4])
            && EncDatum(ComplexDatum(5, 6)) == ([0, 0, 0, 0] + [0, 0, 0, 5]) + ([0, 0, 0, 0] + [0, 0, 0, 6])
  {
    hide EncInt, EncItems, EncBits;
    SmallWords();
    DoubleBytes();
    MoreItems(Int32Datum(-5), []);
    MoreItems(DoubleDatum(9), []);
    MoreItems(StructDatum([Int32Datum(-5)]), [DoubleDatum(9)] + []);
    MoreItems(Int8Datum(255), [StructDatum([Int32Datum(-5)])] + ([DoubleDatum(9)] + []));
    assert [Int32Datum(-5)] + [] == [Int32Datum(-5)];
    assert [Int8Datum(255)] + ([StructDatum([Int32Datum(-5)])] + ([DoubleDatum(9)] + [])) == DATUM.items;
  }

  lemma DoubleBytes()
    ensures EncBits(9) == ([0, 0, 0, 0] + [0, 0, 0, 9]) && EncBits(3) == ([0, 0, 0, 0] + [0, 0, 0, 3])
            && EncBits(4) == ([0, 0, 0, 0] + [0, 0, 0, 4])
    ensures EncBits(5) == ([0, 0, 0, 0] + [0, 0, 0, 5]) && EncBits(6) == ([0, 0, 0, 0] + [0, 0, 0, 6])
  {
  }

  lemma ValueBytes()
    ensures EncValue(X, Nothing) == V0
  {
    hide EncInt, EncString, EncDatum, EncProperties, DATUM;
    SmallWords();
    StringBytes([120]);
    StringBytes([117]);
    StringBytes([118]);
    DatumBytes();
    OneProperty(NOTE);
  }

  lemma ComplexBytes()
    ensures EncValue(Y, Nothing) == V1 && EncValue(Y_AGAIN, Nothing) == V2
  {
    hide EncInt, EncString, EncDatum, EncProperties;
    SmallWords();
    StringBytes([121]);
    DatumBytes();
    NoProperties();
  }

  // ---------------------------------------------------------------- sections

  lemma Sizes()
    ensures |H0| == 20 && |T0| == 128 && |T1| == 24 && |V0| == 56 && |V1| == |V2| == 36
  {
  }

  lemma SectionWords()
    ensures EncWord(21) + EncWord(36) == [0, 0, 0, 21, 0, 0, 0, 36] && EncWord(1) == [0, 0, 0, 1]
    ensures EncWord(19) + EncWord(0) + [] == [0, 0, 0, 19, 0, 0, 0, 0]
    ensures EncWord(21) + EncWord(212) + EncWord(22) + EncWord(204)
            == [0, 0, 0, 21, 0, 0, 0, 212, 0, 0, 0, 22, 0, 0, 0, 204]
  {
  }

  lemma ValueSectionWords()
    ensures EncWord(21) + EncWord(364) + EncWord(22) + EncWord(356)
            == [0, 0, 0, 21, 0, 0, 1, 108, 0, 0, 0, 22, 0, 0, 1, 100]
    ensures EncWord(19) + EncWord(0) + [] == [0, 0, 0, 19, 0, 0, 0, 0]
  {
  }

  lemma HeaderSection()
    ensures EncSection(HeaderSource(HEADER, true), 4, Nothing) == HEADER_BYTES && |HEADER_BYTES| == 32
  {
    hide EncProperty, EncChildren, EncWord, H0, PropertyChunks;
    Sizes();
    var a: Chunk<Datum> := PropertyChunk(HEADER[0]);
    ManyProperties(HEADER, [a] + []);
    HeaderBytes();
    MoreChildren(a, []);
    SectionWords();
    SimpleBytes(HeaderKind, 4, PropertyChunks(HEADER), true, H0, [0, 0, 0, 21, 0, 0, 0, 36]);
  }

  lemma TypeSection()
    ensures EncSection(TypeSource([STRUCT, COMPLEX], []), 36, Nothing) == TYPE_BYTES && |TYPE_BYTES| == 176
  {
    hide EncTypeDef, EncChildren, EncWord, STRUCT, COMPLEX, T0, T1, TypeChunks;
    Sizes();
    TwoDefinitions(STRUCT, COMPLEX);
    StructBytes();
    ScalarFieldBytes();
    var a, b: Chunk<Datum> := TypeChunk(STRUCT), TypeChunk(COMPLEX);
    MoreChildren(b, []);
    MoreChildren(a, [b] + []);
    assert [a] + ([b] + []) == [a, b];
    SectionWords();
    IndexedBytes(36, TypeChunks([STRUCT, COMPLEX]), [], T0 + T1, [0, 0, 0, 21, 0, 0, 0, 212, 0, 0, 0, 22, 0, 0, 0, 204],
                 [0, 0, 0, 19, 0, 0, 0, 0]);
  }

  lemma ValueSection()
    ensures EncSection(UnsweptSource([X, Y, Y_AGAIN], []), 212, Nothing) == VALUE_BYTES && |VALUE_BYTES| == 152
  {
    hide EncValue, EncChildren, EncWord, X, Y, Y_AGAIN, V0, V1, V2, EncChunk;
    Sizes();
    ChunkBytes();
    MoreChildren(Y_AGAIN, []);
    MoreChildren(Y, [Y_AGAIN] + []);
    MoreChildren(X, [Y] + ([Y_AGAIN] + []));
    assert [X] + ([Y] + ([Y_AGAIN] + [])) == [X, Y, Y_AGAIN];
    ValueSectionWords();
    IndexedBytes(212, [X, Y, Y_AGAIN], [], V0 + (V1 + V2), [0, 0, 0, 21, 0, 0, 1, 108, 0, 0, 0, 22, 0, 0, 1, 100],
                 [0, 0, 0, 19, 0, 0, 0, 0]);
  }

  lemma ChunkBytes()
    ensures EncChunk(X, Nothing) == V0 && EncChunk(Y, Nothing) == V1 && EncChunk(Y_AGAIN, Nothing) == V2
  {
    hide EncValue, V0, V1, V2;
    ValueBytes();
    ComplexBytes();
  }

  // ---------------------------------------------------------------- the file

  const SECTIONS := [SectionBytes(0, HEADER_BYTES), SectionBytes(1, TYPE_BYTES), SectionBytes(4, VALUE_BYTES)]

  lemma SectionsWritten()
    ensures WrittenSections(Sources(), Nothing) == SECTIONS
    ensures |HEADER_BYTES| == 32 && |TYPE_BYTES| == 176 && |VALUE_BYTES| == 152
  {
    hide EncSection, HEADER_BYTES, TYPE_BYTES, VALUE_BYTES, HEADER, STRUCT, COMPLEX, X, Y, Y_AGAIN, WrittenSections;
    HeaderSection();
    TypeSection();
    ValueSection();
    ThreeSections(Sources(), [HEADER_BYTES, TYPE_BYTES, VALUE_BYTES], 36, 212);
  }

  lemma TableWords()
    ensures EncInt(0) + EncWord(4) == [0, 0, 0, 0, 0, 0, 0, 4] && EncInt(1) + EncWord(36) == [0, 0, 0, 1, 0, 0, 0, 36]
    ensures EncInt(4) + EncWord(212) == [0, 0, 0, 4, 0, 0, 0, 212] && EncWord(364) == [0, 0, 1, 108]
            && EncInt(0) == [0, 0, 0, 0]
  {
  }

  lemma TableWritten()
    ensures EncEntries(EntriesOf(SECTIONS, 4)) == TABLE_BYTES
  {
    hide EncEntries, EntriesOf, EncInt, EncWord, HEADER_BYTES, TYPE_BYTES, VALUE_BYTES, WrittenSections, Sources;
    SectionsWritten();
    ThreeEntries(SECTIONS, 36, 212);
    TableWords();
  }

  lemma FileWritten()
    ensures EncSources(Sources(), Nothing) == FileBytes() && |FileBytes()| == 400
  {
    hide EncEntries, EntriesOf, EncInt, EncWord, Body, HEADER_BYTES, TYPE_BYTES, VALUE_BYTES, Sources, WrittenSections;
    SectionsWritten();
    TableWritten();
    ThreeBodies(SECTIONS);
    TableWords();
    assert CLARISSA == [67, 108, 97, 114, 105, 115, 115, 97];
    assert VALUE_BYTES + [] == VALUE_BYTES;
  }

  // ---------------------------------------------------------------- it is read back

  lemma Numbered()
    ensures SourceNumbered(Sources(), SECTION_HEADER) == Some(0) && SourceNumbered(Sources(), SECTION_TYPE) == Some(1)
    ensures SourceNumbered(Sources(), SECTION_SWEEP) == None && SourceNumbered(Sources(), SECTION_TRACE) == None
    ensures SourceNumbered(Sources(), SECTION_VALUE) == Some(2)
  {
    hide SourceNumbered, HEADER, STRUCT, COMPLEX, X, Y, Y_AGAIN;
    var sources := Sources();
    assert Number(sources[0]) == 0 && Number(sources[1]) == 1 && Number(sources[2]) == 4;
  }

  lemma FileContents()
    ensures HeaderOf(Sources()) == HEADER && FileTypes(Sources()) == TYPES && TypesOf(Sources()) == MODEL.types
    ensures SweepsOf(Sources()) == None && TracesOf(Sources()) == None
  {
    hide SourceNumbered, TypeTableOf, TypeChunks, RefChunks, Denoted, HEADER, STRUCT, COMPLEX, X, Y, Y_AGAIN;
    Numbered();
    TwoDefinitions(STRUCT, COMPLEX);
    assert STRUCT.id == 5 && COMPLEX.id == 6 by { TypeIds(); }
    TableOfTwo(STRUCT, COMPLEX);
  }

  lemma TypeIds()
    ensures STRUCT.id == 5 && COMPLEX.id == 6
  {
  }

  lemma StructHasType()
    ensures HasType(DATUM, STRUCT.body) && NestedComplex(STRUCT.body) == 0
            && Meaning(DATUM, STRUCT.body) == STRUCT_VALUE
  {
    var items, fields := DATUM.items, STRUCT.body.fields;
    assert items[1..] == [items[1], items[2]] && items[1..][1..] == [items[2]] && items[1..][1..][1..] == [];
    assert fields[1..] == [FIELD_C, FIELD_B] && fields[1..][1..] == [FIELD_B] && fields[1..][1..][1..] == [];
    assert [Int32Datum(-5)][1..] == [] && [FIELD_D][1..] == [];
    InnerStruct();
    assert HaveTypes([items[2]], [FIELD_B]) && HaveTypes([items[1], items[2]], [FIELD_C, FIELD_B]);
    assert [FIELD_B][1..] == [] && [FIELD_C, FIELD_B][1..] == [FIELD_B];
    assert FieldComplexLeaves([FIELD_B]) == 0 && FieldComplexLeaves([FIELD_C, FIELD_B]) == 0;
    assert FieldComplexLeaves(fields) == 0;
    var a := map[[97] := Int8Value(-1)];
    var c := a[[99] := StructValue(map[[100] := Int32Value(-5)])];
    assert Members([items[2]], [FIELD_B], c) == c[[98] := DoubleValue(9)];
    assert Members([items[1], items[2]], [FIELD_C, FIELD_B], a) == c[[98] := DoubleValue(9)];
  }

  lemma InnerStruct()
    ensures HasType(StructDatum([Int32Datum(-5)]), FIELD_C.body) && ComplexLeaves(FIELD_C.body) == 0
    ensures Meaning(StructDatum([Int32Datum(-5)]), FIELD_C.body) == StructValue(map[[100] := Int32Value(-5)])
  {
    assert [Int32Datum(-5)][1..] == [] && [FIELD_D][1..] == [] && HaveTypes([], []);
    assert FieldComplexLeaves([FIELD_D][1..]) == 0 && FieldComplexLeaves([FIELD_D]) == 0;
    assert Members([Int32Datum(-5)][1..], [FIELD_D][1..], map[[100] := Int32Value(-5)]) == map[[100] := Int32Value(-5)];
  }

  lemma ValuesEncodable()
    ensures EncodableChildren(ValueKind, TYPES, [X, Y, Y_AGAIN])
  {
    hide HasType, NestedComplex, STRUCT, DATUM;
    StructHasType();
    ComplexHasType();
  }

  lemma ComplexHasType()
    ensures HasType(ComplexDatum(3, 4), ComplexDouble) && HasType(ComplexDatum(5, 6), ComplexDouble)
    ensures NestedComplex(ComplexDouble) == 0
  {
  }

  lemma FileIsWritable()
    ensures Writable(Sources(), Nothing)
  {
    hide EncSources, SourceNumbered, FileTypes, HeaderOf, TracesOf, Windowed, EncodableSource, HEADER, STRUCT, COMPLEX,
         X, Y, Y_AGAIN, TYPES, FileBytes, EncodableChildren;
    Numbered();
    FileContents();
    FileWritten();
    AllEncodable();
    ValuesEncodable();
    var sources := Sources();
    assert Number(sources[0]) == 0 && Number(sources[1]) == 1 && Number(sources[2]) == 4;
  }

  lemma AllEncodable()
    ensures forall k :: 0 <= k < 3 ==> EncodableSource(Sources()[k])
  {
    hide X, Y, Y_AGAIN, EncodableType, HEADER, STRUCT, COMPLEX;
    TypesEncodable();
    assert EncodableProperties(HEADER) by { HeaderEncodable(); }
    var sources := Sources();
    assert EncodableSource(sources[0]) && EncodableSource(sources[1]) && EncodableSource(sources[2]);
  }

  lemma HeaderEncodable()
    ensures EncodableProperties(HEADER)
  {
  }

  lemma TypesEncodable()
    ensures EncodableType(STRUCT) && EncodableType(COMPLEX)
  {
    assert EncodableFields([]) && [FIELD_D][1..] == [] && [FIELD_B][1..] == [] && [FIELD_C, FIELD_B][1..] == [FIELD_B];
    assert EncodableFields([FIELD_D]) && EncodableFields([FIELD_B]);
    assert EncodableType(FIELD_C) && EncodableFields([FIELD_C, FIELD_B]);
    assert STRUCT.body.fields[1..] == [FIELD_C, FIELD_B];
    assert EncodableFields(STRUCT.body.fields);
  }

  lemma ValuesDenoted()
    ensures Some(Denoted(TYPES, [X, Y, Y_AGAIN])) == MODEL.unswept
  {
    hide Meaning, STRUCT, DATUM, STRUCT_VALUE, NOTE;
    StructHasType();
    ComplexMeanings();
    assert Denotes(TYPES, X) == MODEL.unswept.value[0] && Denotes(TYPES, Y) == MODEL.unswept.value[1];
    assert Denotes(TYPES, Y_AGAIN) == MODEL.unswept.value[2];
    assert [X, Y, Y_AGAIN][1..] == [Y, Y_AGAIN] && [Y, Y_AGAIN][1..] == [Y_AGAIN] && [Y_AGAIN][1..] == [];
    assert Denoted(TYPES, [Y_AGAIN]) == [Denotes(TYPES, Y_AGAIN)] + Denoted(TYPES, [Y_AGAIN][1..]);
    assert Denoted(TYPES, [Y, Y_AGAIN]) == [Denotes(TYPES, Y)] + Denoted(TYPES, [Y, Y_AGAIN][1..]);
    assert Denoted(TYPES, [X, Y, Y_AGAIN]) == [Denotes(TYPES, X)] + Denoted(TYPES, [X, Y, Y_AGAIN][1..]);
    assert Denoted(TYPES, [X, Y, Y_AGAIN]) == MODEL.unswept.value;
  }

  lemma ComplexMeanings()
    ensures Meaning(ComplexDatum(3, 4), ComplexDouble) == ComplexValue(3, 4)
    ensures Meaning(ComplexDatum(5, 6), ComplexDouble) == ComplexValue(5, 6)
  {
  }

  lemma ModelIsRead()
    ensures Contents(Sources(), Nothing) == MODEL
  {
    hide SourceNumbered, FileTypes, HeaderOf, TypesOf, SweepsOf, TracesOf, HEADER, STRUCT, COMPLEX, X, Y, Y_AGAIN,
         Denoted, TYPES;
    Numbered();
    FileContents();
    ValuesDenoted();
  }

  lemma ExampleOpens()
    ensures OpenFile(FileBytes()) == Ok(MODEL)
  {
    hide EncSources, OpenFile, Writable, Contents, FileBytes;
    FileWritten();
    FileIsWritable();
    FileIsReadBack(Sources(), Nothing);
    ModelIsRead();
  }

  /** What the library returns for the file. The names are "x", "y" and "y", of which the last "y" is found. */
  ghost predicate Returned(m: FileModel, buf: Bytes) {
    && SignalNames(m) == Ok([[120], [121], [121]])
    && ScalarNamed(m, [120]) == Ok(STRUCT_VALUE) && ScalarNamed(m, [121]) == Ok(ComplexValue(5, 6))
    && ScalarNamed(m, [122]) == Err(NotFound)
    && Signal(m, buf, [120]) == Ok(None) && ParamValues(m, buf) == Ok(None)
  }

  lemma NamesOfFile()
    ensures Names(MODEL.unswept.value) == [[120], [121], [121]]
    ensures ChildNamed(MODEL.unswept.value, [120]) == Ok(MODEL.unswept.value[0])
    ensures ChildNamed(MODEL.unswept.value, [121]) == Ok(MODEL.unswept.value[2])
    ensures ChildNamed(MODEL.unswept.value, [122]) == Err(NotFound)
  {
    hide STRUCT_VALUE, NOTE;
    assert Names(MODEL.unswept.value) == [[120], [121], [121]];
    hide Names;
  }

  /** The bytes are opened to the contents, and the names and values are those written. */
  lemma ScalarsReadBack()
    ensures OpenFile(FileBytes()) == Ok(MODEL) && Returned(MODEL, FileBytes())
  {
    hide OpenFile, FileBytes, STRUCT_VALUE, HEADER, STRUCT, COMPLEX, NOTE, ChildNamed, Names;
    ExampleOpens();
    NamesOfFile();
  }
}
