/** A windowed file written out byte by byte, and what the library returns for it. It meets every premise of the
    end-to-end theorem. */
module Example {
  import opened Base
  import opened Words
  import opened Properties
  import opened Types
  import opened Values
  import opened Chunks
  import opened Containers
  import opened Traces
  import opened Offsets
  import opened Sweeps
  import opened Runs
  import opened SweepTables
  import opened WindowSlots
  import opened Sections
  import opened File
  import opened FileRoundTrip
  import opened EndToEnd
  import opened Literal

  // ---------------------------------------------------------------- the file

  // Properties "PSF window size" = 16, "PSF traces" = 2, "PSF sweep points" = 3, "s" = "ab", and "r", a double.
  const H0: Bytes :=
    [0, 0, 0, 34] + (([0, 0, 0, 15] + [80, 83, 70, 32, 119, 105, 110, 100, 111, 119, 32, 115, 105, 122, 101] + [0])
    + [0, 0, 0, 16])
  const H1: Bytes :=
    [0, 0, 0, 34] + (([0, 0, 0, 10] + [80, 83, 70, 32, 116, 114, 97, 99, 101, 115] + [0, 0]) + [0, 0, 0, 2])
  const H2: Bytes :=
    [0, 0, 0, 34] + (([0, 0, 0, 16] + [80, 83, 70, 32, 115, 119, 101, 101, 112, 32, 112, 111, 105, 110, 116, 115])
    + [0, 0, 0, 3])
  const H3: Bytes := [0, 0, 0, 33] + (([0, 0, 0, 1] + [115] + [0, 0, 0]) + ([0, 0, 0, 2] + [97, 98] + [0, 0]))
  const H4: Bytes := [0, 0, 0, 35] + (([0, 0, 0, 1] + [114] + [0, 0, 0]) + ([1, 2, 3, 4] + [5, 6, 7, 8]))

  // Types 300, "d", of doubles, and -2, "i", of 32-bit integers.
  const T0: Bytes :=
    [0, 0, 0, 16] + ([0, 0, 1, 44] + (([0, 0, 0, 1] + [100] + [0, 0, 0]) + ([0, 0, 0, 0] + [0, 0, 0, 11])))
  const T1: Bytes :=
    [0, 0, 0, 16] + ([255, 255, 255, 254] + (([0, 0, 0, 1] + [105] + [0, 0, 0]) + ([0, 0, 0, 0] + [0, 0, 0, 5])))

  // Sweeps 10, "t", of type 300, and 13, "uu", of type -2.
  const S0: Bytes := [0, 0, 0, 16] + ([0, 0, 0, 10] + (([0, 0, 0, 1] + [116] + [0, 0, 0]) + [0, 0, 1, 44]))
  const S1: Bytes := [0, 0, 0, 16] + ([0, 0, 0, 13] + (([0, 0, 0, 2] + [117, 117] + [0, 0]) + [255, 255, 255, 254]))

  // Group 20, "g", of the traces 11, "aa", of type 300, and 12, "bbb", of type -2.
  const M0: Bytes := [0, 0, 0, 16] + ([0, 0, 0, 11] + (([0, 0, 0, 2] + [97, 97] + [0, 0]) + [0, 0, 1, 44]))
  const M1: Bytes := [0, 0, 0, 16] + ([0, 0, 0, 12] + (([0, 0, 0, 3] + [98, 98, 98] + [0]) + [255, 255, 255, 254]))
  const G0: Bytes :=
    [0, 0, 0, 17] + ([0, 0, 0, 20] + (([0, 0, 0, 1] + [103] + [0, 0, 0]) + ([0, 0, 0, 2] + (M0 + M1))))

  // Two windows, of two points and of one: the parameter, the doubles of "aa", the integers of "bbb".
  const W0: Bytes :=
    [0, 0, 0, 16] + ([0, 0, 0, 2] + ((([0, 0, 0, 0] + [0, 0, 0, 7]) + ([64, 0, 0, 0] + [0, 0, 0, 0]))
      + ((([0, 0, 0, 0] + [0, 0, 0, 1]) + ([0, 0, 0, 0] + [0, 0, 0, 2]))
         + ([1, 2, 3, 4, 5, 6, 7, 8] + ([0, 0, 0, 4] + [255, 255, 255, 251])))))
  const W1: Bytes :=
    [0, 0, 0, 16] + ([0, 0, 0, 1] + (([0, 0, 0, 0] + [0, 0, 0, 9])
      + (([9, 9, 9, 9, 9, 9, 9, 9] + ([0, 0, 0, 0] + [0, 0, 0, 3]))
         + ([8, 8, 8, 8, 8, 8, 8, 8, 8, 8, 8, 8] + [0, 0, 0, 6]))))

  const HEADER_BODY := H0 + (H1 + (H2 + (H3 + H4)))
  const HEADER_BYTES := [0, 0, 0, 21, 0, 0, 0, 136] + (HEADER_BODY + [0, 0, 0, 1])
  const TYPE_BYTES :=
    [0, 0, 0, 21, 0, 0, 0, 216, 0, 0, 0, 22, 0, 0, 0, 200]
    + ((T0 + T1) + [0, 0, 0, 19, 0, 0, 0, 8, 7, 7, 7, 7, 7, 7, 7, 7])
  const SWEEP_BYTES := [0, 0, 0, 21, 0, 0, 1, 8] + (S0 + S1)
  const TRACE_BYTES :=
    [0, 0, 0, 21, 0, 0, 1, 92, 0, 0, 0, 22, 0, 0, 1, 84] + (G0 + [0, 0, 0, 19, 0, 0, 0, 0])
  const VALUE_BYTES :=
    [0, 0, 0, 21, 0, 0, 1, 214] + ([0, 0, 0, 20, 0, 0, 0, 2, 5, 6] + (W0 + W1))
  const TABLE_BYTES: Bytes :=
    ([0, 0, 0, 0, 0, 0, 0, 4]
    + ([0, 0, 0, 1, 0, 0, 0, 136]
    + ([0, 0, 0, 2, 0, 0, 0, 216]
    + ([0, 0, 0, 3, 0, 0, 1, 8]
    + [0, 0, 0, 4, 0, 0, 1, 92]))))

  /** The first word, five sections, the section table, the mark, and where the table stands. */
  function FileBytes(): Bytes {
    [0, 0, 0, 0] + ((HEADER_BYTES + (TYPE_BYTES + (SWEEP_BYTES + (TRACE_BYTES + VALUE_BYTES))))
      + (TABLE_BYTES + ([67, 108, 97, 114, 105, 115, 115, 97] + [0, 0, 1, 214])))
  }

  // ---------------------------------------------------------------- its contents

  const HEADER: seq<Property> :=
    [Property([80, 83, 70, 32, 119, 105, 110, 100, 111, 119, 32, 115, 105, 122, 101], Integer(16)),
     Property([80, 83, 70, 32, 116, 114, 97, 99, 101, 115], Integer(2)),
     Property([80, 83, 70, 32, 115, 119, 101, 101, 112, 32, 112, 111, 105, 110, 116, 115], Integer(3)),
     Property([115], Text([97, 98])),
     Property([114], Real(0x0102030405060708))]
  const NUMBER := TypeDef(300, [100], Double, [])
  const COUNT := TypeDef(-2, [105], Int32, [])
  const TIME := TypeRef(10, [116], 300, [])
  const OTHER := TypeRef(13, [117, 117], -2, [])
  const AA := TypeRef(11, [97, 97], 300, [])
  const BBB := TypeRef(12, [98, 98, 98], -2, [])
  const GROUP := GroupDef(20, [103], [AA, BBB])

  const TYPES: TypeTable := map[300 := NUMBER, -2 := COUNT]
  const TABLE := Table(
    [DoubleDatum(7), DoubleDatum(0x4000000000000000), DoubleDatum(9)],
    map[11 := [DoubleDatum(1), DoubleDatum(2), DoubleDatum(3)], 12 := [Int32Datum(4), Int32Datum(-5), Int32Datum(6)]])
  const WINDOWS := [
    Window(2, 0, map[11 := [], 12 := [1, 2, 3, 4, 5, 6, 7, 8]]),
    Window(1, 0, map[11 := [9, 9, 9, 9, 9, 9, 9, 9], 12 := [8, 8, 8, 8, 8, 8, 8, 8, 8, 8, 8, 8]])]
  const ITEMS := [Slot(11, 16), Slot(12, 16)]
  const SETUP := Setup(TYPES, map[11 := 0, 12 := 16], 10, Double, Some(16), 32)

  function Sources(): (r: seq<Source>)
    ensures |r| == 5
  {
    [HeaderSource(HEADER, true), TypeSource([NUMBER, COUNT], [7, 7, 7, 7, 7, 7, 7, 7]),
     SweepSource([TIME, OTHER], false), TraceSource([GroupChunk(GROUP)], []), SweptSource(Some([5, 6]), W0 + W1)]
  }

  /** The opened file. */
  const MODEL := FileModel(
    HEADER, Some([TypeChunk(NUMBER), TypeChunk(COUNT)]), Some([RefChunk(TIME), RefChunk(OTHER)]),
    Some([GroupChunk(GROUP)]), Some(SweptValues(true, map[11 := 0, 12 := 16], 32, 366)), None)

  // ---------------------------------------------------------------- the bytes are those of the contents

  lemma LowWords()
    ensures EncInt(0) == [0, 0, 0, 0] && EncInt(1) == [0, 0, 0, 1]
    ensures EncInt(2) == [0, 0, 0, 2] && EncInt(3) == [0, 0, 0, 3]
    ensures EncInt(5) == [0, 0, 0, 5] && EncInt(10) == [0, 0, 0, 10]
    ensures EncInt(11) == [0, 0, 0, 11] && EncInt(12) == [0, 0, 0, 12]
    ensures EncInt(13) == [0, 0, 0, 13] && EncInt(15) == [0, 0, 0, 15]
  {
  }

  lemma HighWords()
    ensures EncInt(16) == [0, 0, 0, 16] && EncInt(17) == [0, 0, 0, 17]
    ensures EncInt(19) == [0, 0, 0, 19] && EncInt(20) == [0, 0, 0, 20]
    ensures EncInt(21) == [0, 0, 0, 21] && EncInt(22) == [0, 0, 0, 22]
    ensures EncInt(33) == [0, 0, 0, 33] && EncInt(34) == [0, 0, 0, 34]
  {
  }

  lemma SignedWords()
    ensures EncInt(-5) == [255, 255, 255, 251] && EncInt(-2) == [255, 255, 255, 254]
    ensures EncInt(35) == [0, 0, 0, 35] && EncInt(300) == [0, 0, 1, 44]
  {
  }

  lemma WholeWords()
    ensures EncWord(0x01020304) == [1, 2, 3, 4] && EncWord(0x05060708) == [5, 6, 7, 8]
  {
  }

  lemma SmallWords()
    ensures EncInt(-5) == [255, 255, 255, 251] && EncInt(-2) == [255, 255, 255, 254]
    ensures EncInt(0) == [0, 0, 0, 0] && EncInt(1) == [0, 0, 0, 1]
    ensures EncInt(2) == [0, 0, 0, 2] && EncInt(3) == [0, 0, 0, 3]
    ensures EncInt(5) == [0, 0, 0, 5] && EncInt(10) == [0, 0, 0, 10]
    ensures EncInt(11) == [0, 0, 0, 11] && EncInt(12) == [0, 0, 0, 12]
    ensures EncInt(13) == [0, 0, 0, 13] && EncInt(15) == [0, 0, 0, 15]
    ensures EncInt(16) == [0, 0, 0, 16] && EncInt(17) == [0, 0, 0, 17]
    ensures EncInt(19) == [0, 0, 0, 19] && EncInt(20) == [0, 0, 0, 20]
    ensures EncInt(21) == [0, 0, 0, 21] && EncInt(22) == [0, 0, 0, 22]
    ensures EncInt(33) == [0, 0, 0, 33] && EncInt(34) == [0, 0, 0, 34]
    ensures EncInt(35) == [0, 0, 0, 35] && EncInt(300) == [0, 0, 1, 44]
    ensures EncWord(0x01020304) == [1, 2, 3, 4] && EncWord(0x05060708) == [5, 6, 7, 8]
  {
    hide EncInt, EncWord;
    LowWords();
    HighWords();
    SignedWords();
    WholeWords();
  }

  lemma HeaderBytes()
    ensures EncProperty(HEADER[0], Nothing) == H0 && EncProperty(HEADER[1], Nothing) == H1
    ensures EncProperty(HEADER[2], Nothing) == H2 && EncProperty(HEADER[3], Nothing) == H3
  {
    hide EncInt, EncString, EncBits;
    SmallWords();
    StringBytes(HEADER[0].name);
    StringBytes(HEADER[1].name);
    StringBytes(HEADER[2].name);
    StringBytes(HEADER[3].name);
    StringBytes([97, 98]);
  }

  lemma RealBytes()
    ensures EncProperty(HEADER[4], Nothing) == H4
  {
    hide EncInt, EncString, EncWord;
    SmallWords();
    StringBytes(HEADER[4].name);
  }

  lemma TypeBytes()
    ensures EncTypeDef(NUMBER, Nothing) == T0 && EncTypeDef(COUNT, Nothing) == T1
  {
    hide EncInt, EncString;
    SmallWords();
    StringBytes(NUMBER.name);
    StringBytes(COUNT.name);
  }

  lemma SweepBytes()
    ensures EncRef(TIME, Nothing) == S0 && EncRef(OTHER, Nothing) == S1
  {
    hide EncInt, EncString;
    SmallWords();
    StringBytes(TIME.name);
    StringBytes(OTHER.name);
  }

  lemma MemberBytes()
    ensures EncRef(AA, Nothing) == M0 && EncRef(BBB, Nothing) == M1
  {
    hide EncInt, EncString;
    SmallWords();
    StringBytes(AA.name);
    StringBytes(BBB.name);
  }

  lemma GroupBytes()
    ensures EncGroup(GROUP, Nothing) == G0
  {
    hide EncInt, EncString, EncRef, M0, M1;
    SmallWords();
    MemberBytes();
    StringBytes(GROUP.name);
    MoreMembers(BBB, []);
    MoreMembers(AA, [BBB] + []);
    assert [AA] + ([BBB] + []) == [AA, BBB];
  }

  // ---------------------------------------------------------------- sections

  lemma HeaderSection()
    ensures EncSection(HeaderSource(HEADER, true), 4, Nothing) == HEADER_BYTES && |HEADER_BYTES| == 132
  {
    hide EncProperty, EncChildren, EncWord, HEADER, H0, H1, H2, H3, H4, PropertyChunks;
    assert |HEADER| == 5 && |HEADER_BODY| == 120 by { HeaderSizes(); }
    var a, b, c, d, e: Chunk<Datum> := PropertyChunk(HEADER[0]), PropertyChunk(HEADER[1]), PropertyChunk(HEADER[2]),
                                       PropertyChunk(HEADER[3]), PropertyChunk(HEADER[4]);
    ManyProperties(HEADER, [a] + ([b] + ([c] + ([d] + ([e] + [])))));
    HeaderBytes();
    RealBytes();
    MoreChildren(e, []);
    MoreChildren(d, [e] + []);
    MoreChildren(c, [d] + ([e] + []));
    MoreChildren(b, [c] + ([d] + ([e] + [])));
    MoreChildren(a, [b] + ([c] + ([d] + ([e] + []))));
    SectionWords();
    SimpleBytes(HeaderKind, 4, PropertyChunks(HEADER), true, HEADER_BODY, [0, 0, 0, 21, 0, 0, 0, 136]);
  }

  lemma HeaderSizes()
    ensures |HEADER| == 5 && |HEADER_BODY| == 120
  {
  }

  lemma SectionWords()
    ensures EncWord(21) + EncWord(136) == [0, 0, 0, 21, 0, 0, 0, 136] && EncWord(1) == [0, 0, 0, 1]
    ensures EncWord(21) + EncWord(216) + EncWord(22) + EncWord(200)
            == [0, 0, 0, 21, 0, 0, 0, 216, 0, 0, 0, 22, 0, 0, 0, 200]
    ensures EncWord(19) + EncWord(8) + [7, 7, 7, 7, 7, 7, 7, 7] == [0, 0, 0, 19, 0, 0, 0, 8, 7, 7, 7, 7, 7, 7, 7, 7]
  {
  }

  lemma MoreSectionWords()
    ensures EncWord(21) + EncWord(264) == [0, 0, 0, 21, 0, 0, 1, 8]
    ensures EncWord(21) + EncWord(348) + EncWord(22) + EncWord(340)
            == [0, 0, 0, 21, 0, 0, 1, 92, 0, 0, 0, 22, 0, 0, 1, 84]
    ensures EncWord(19) + EncWord(0) + [] == [0, 0, 0, 19, 0, 0, 0, 0]
    ensures EncWord(21) + EncWord(470) == [0, 0, 0, 21, 0, 0, 1, 214]
    ensures EncWord(20) + (EncWord(2) + [5, 6]) == [0, 0, 0, 20, 0, 0, 0, 2, 5, 6]
  {
  }

  lemma TypeSection()
    ensures EncSection(TypeSource([NUMBER, COUNT], [7, 7, 7, 7, 7, 7, 7, 7]), 136, Nothing) == TYPE_BYTES
            && |TYPE_BYTES| == 80
  {
    hide EncTypeDef, EncChildren, EncWord, NUMBER, COUNT, T0, T1, TypeChunks;
    assert |T0| == |T1| == 24 by { TypeSizes(); }
    TwoDefinitions(NUMBER, COUNT);
    TypeBytes();
    var a, b: Chunk<Datum> := TypeChunk(NUMBER), TypeChunk(COUNT);
    MoreChildren(b, []);
    MoreChildren(a, [b] + []);
    assert [a] + ([b] + []) == [a, b];
    SectionWords();
    IndexedBytes(136, TypeChunks([NUMBER, COUNT]), [7, 7, 7, 7, 7, 7, 7, 7], T0 + T1,
                 [0, 0, 0, 21, 0, 0, 0, 216, 0, 0, 0, 22, 0, 0, 0, 200],
                 [0, 0, 0, 19, 0, 0, 0, 8, 7, 7, 7, 7, 7, 7, 7, 7]);
  }

  lemma TypeSizes()
    ensures |T0| == |T1| == 24
  {
  }

  lemma SweepSection()
    ensures EncSection(SweepSource([TIME, OTHER], false), 216, Nothing) == SWEEP_BYTES && |SWEEP_BYTES| == 48
  {
    hide EncRef, EncChildren, EncWord, TIME, OTHER, S0, S1, RefChunks;
    assert |S0| == |S1| == 20 by { SweepSizes(); }
    TwoReferences(TIME, OTHER);
    SweepBytes();
    var a, b: Chunk<Datum> := RefChunk(TIME), RefChunk(OTHER);
    MoreChildren(b, []);
    MoreChildren(a, [b] + []);
    assert [a] + ([b] + []) == [a, b];
    MoreSectionWords();
    SimpleBytes(SweepKind, 216, RefChunks([TIME, OTHER]), false, S0 + S1, [0, 0, 0, 21, 0, 0, 1, 8]);
    assert S0 + S1 + [] == S0 + S1;
  }

  lemma SweepSizes()
    ensures |S0| == |S1| == 20 && |G0| == 60
  {
  }

  lemma TraceSection()
    ensures EncSection(TraceSource([GroupChunk(GROUP)], []), 264, Nothing) == TRACE_BYTES && |TRACE_BYTES| == 84
  {
    hide EncGroup, EncChildren, EncWord, GROUP, G0;
    assert |G0| == 60 by { SweepSizes(); }
    GroupBytes();
    var a: Chunk<Datum> := GroupChunk(GROUP);
    MoreChildren(a, []);
    assert [a] + [] == [a];
    MoreSectionWords();
    IndexedBytes(264, [GroupChunk(GROUP)], [], G0, [0, 0, 0, 21, 0, 0, 1, 92, 0, 0, 0, 22, 0, 0, 1, 84],
                 [0, 0, 0, 19, 0, 0, 0, 0]);
  }

  lemma ValueSection()
    ensures EncSection(SweptSource(Some([5, 6]), W0 + W1), 348, Nothing) == VALUE_BYTES && |VALUE_BYTES| == 122
  {
    hide EncWord, W0, W1;
    assert |W0| == 56 && |W1| == 48 by { WindowSizes(); }
    MoreSectionWords();
    var front := [0, 0, 0, 20, 0, 0, 0, 2, 5, 6];
    Associate(EncWord(21), EncWord(470), front + (W0 + W1));
  }

  lemma WindowSizes()
    ensures |W0| == 56 && |W1| == 48
  {
  }

  // ---------------------------------------------------------------- windows

  lemma DataBytes()
    ensures EncBits(7) == [0, 0, 0, 0] + [0, 0, 0, 7] && EncBits(9) == [0, 0, 0, 0] + [0, 0, 0, 9]
    ensures EncBits(1) == [0, 0, 0, 0] + [0, 0, 0, 1] && EncBits(2) == [0, 0, 0, 0] + [0, 0, 0, 2]
    ensures EncBits(3) == [0, 0, 0, 0] + [0, 0, 0, 3]
    ensures EncBits(0x4000000000000000) == [64, 0, 0, 0] + [0, 0, 0, 0]
    ensures EncInt(4) == [0, 0, 0, 4] && EncInt(-5) == [255, 255, 255, 251] && EncInt(6) == [0, 0, 0, 6]
    ensures EncWord(16) == [0, 0, 0, 16] && EncWord(1) == [0, 0, 0, 1] && EncWord(2) == [0, 0, 0, 2]
  {
  }

  lemma {:induction false} PiecesBytes(f: Filling)
    ensures EncPieces(TABLE.cols, f, ITEMS) == EncPiece(TABLE.cols, f, ITEMS[0]) + EncPiece(TABLE.cols, f, ITEMS[1])
  {
    hide EncPiece;
    assert ITEMS[..1] == [ITEMS[0]] && [ITEMS[0]][..0] == [];
    assert EncPieces(TABLE.cols, f, [ITEMS[0]])
        == EncPieces(TABLE.cols, f, [ITEMS[0]][..0]) + EncPiece(TABLE.cols, f, ITEMS[0]);
  }

  lemma {:induction false} TwoItems(a: Datum, b: Datum)
    ensures EncItems([a, b]) == EncDatum(a) + EncDatum(b) && EncItems([a]) == EncDatum(a)
  {
    hide EncDatum;
    MoreItems(b, []);
    MoreItems(a, [b]);
    MoreItems(a, []);
    assert [b] + [] == [b] && [a] + [b] == [a, b] && [a] + [] == [a];
  }

  lemma FirstWindow()
    ensures EncWindow(TABLE, ITEMS, 0, WINDOWS[0]) == W0
  {
    hide EncItems, EncBits, EncInt, EncWord, EncPieces;
    var f := WindowFilling(0, 2, WINDOWS[0].pads);
    PiecesBytes(f);
    DataBytes();
    assert TABLE.params[0..2] == [DoubleDatum(7), DoubleDatum(0x4000000000000000)];
    TwoItems(DoubleDatum(7), DoubleDatum(0x4000000000000000));
    assert RunOf(TABLE.cols, 11, 0, 2) == [DoubleDatum(1), DoubleDatum(2)];
    TwoItems(DoubleDatum(1), DoubleDatum(2));
    assert RunOf(TABLE.cols, 12, 0, 2) == [Int32Datum(4), Int32Datum(-5)];
    TwoItems(Int32Datum(4), Int32Datum(-5));
    var data := EncItems([DoubleDatum(1), DoubleDatum(2)]);
    assert [] + data == data;
  }

  lemma SecondWindow()
    ensures EncWindow(TABLE, ITEMS, 2, WINDOWS[1]) == W1
  {
    hide EncItems, EncBits, EncInt, EncWord, EncPieces;
    var f := WindowFilling(2, 1, WINDOWS[1].pads);
    PiecesBytes(f);
    DataBytes();
    assert TABLE.params[2..3] == [DoubleDatum(9)];
    TwoItems(DoubleDatum(9), DoubleDatum(9));
    assert RunOf(TABLE.cols, 11, 2, 1) == [DoubleDatum(3)];
    TwoItems(DoubleDatum(3), DoubleDatum(3));
    assert RunOf(TABLE.cols, 12, 2, 1) == [Int32Datum(6)];
    TwoItems(Int32Datum(6), Int32Datum(6));
  }

  lemma PayloadBytes()
    ensures EncTable(SETUP, TABLE, ITEMS, 3, InWindows(WINDOWS)) == W0 + W1
  {
    hide EncWindow, W0, W1, TABLE, ITEMS;
    FirstWindow();
    SecondWindow();
    assert WINDOWS[1..] == [WINDOWS[1]] && [WINDOWS[1]][1..] == [];
    assert EncWindows(TABLE, ITEMS, 3, [WINDOWS[1]][1..]) == [];
    assert EncWindows(TABLE, ITEMS, 2, [WINDOWS[1]]) == W1 + [] == W1;
  }

  // ---------------------------------------------------------------- the file

  const SECTIONS := [
    SectionBytes(0, HEADER_BYTES), SectionBytes(1, TYPE_BYTES), SectionBytes(2, SWEEP_BYTES),
    SectionBytes(3, TRACE_BYTES), SectionBytes(4, VALUE_BYTES)]

  lemma SectionsWritten()
    ensures WrittenSections(Sources(), Nothing) == SECTIONS
    ensures |HEADER_BYTES| == 132 && |TYPE_BYTES| == 80 && |SWEEP_BYTES| == 48
    ensures |TRACE_BYTES| == 84 && |VALUE_BYTES| == 122
  {
    hide EncSection, HEADER_BYTES, TYPE_BYTES, SWEEP_BYTES, TRACE_BYTES, VALUE_BYTES, HEADER, NUMBER, COUNT, TIME,
         OTHER, GROUP, W0, W1, WrittenSections;
    HeaderSection();
    TypeSection();
    SweepSection();
    TraceSection();
    ValueSection();
    FiveSections(Sources(), [HEADER_BYTES, TYPE_BYTES, SWEEP_BYTES, TRACE_BYTES, VALUE_BYTES],
                 [4, 136, 216, 264, 348]);
  }

  lemma TableWords()
    ensures EncInt(0) + EncWord(4) == [0, 0, 0, 0, 0, 0, 0, 4] && EncInt(1) + EncWord(136) == [0, 0, 0, 1, 0, 0, 0, 136]
    ensures EncInt(2) + EncWord(216) == [0, 0, 0, 2, 0, 0, 0, 216]
            && EncInt(3) + EncWord(264) == [0, 0, 0, 3, 0, 0, 1, 8]
    ensures EncInt(4) + EncWord(348) == [0, 0, 0, 4, 0, 0, 1, 92] && EncWord(470) == [0, 0, 1, 214]
            && EncInt(0) == [0, 0, 0, 0]
  {
  }

  lemma TableWritten()
    ensures EncEntries(EntriesOf(SECTIONS, 4)) == TABLE_BYTES
  {
    hide EncEntries, EntriesOf, EncInt, EncWord, HEADER_BYTES, TYPE_BYTES, SWEEP_BYTES, TRACE_BYTES, VALUE_BYTES,
         WrittenSections, Sources;
    SectionsWritten();
    FiveEntries(SECTIONS, 136, 216, 264, 348);
    TableWords();
  }

  lemma FileWritten()
    ensures EncSources(Sources(), Nothing) == FileBytes() && |FileBytes()| == 522
  {
    hide EncEntries, EntriesOf, EncInt, EncWord, Body, HEADER_BYTES, TYPE_BYTES, SWEEP_BYTES, TRACE_BYTES, VALUE_BYTES,
         Sources, WrittenSections;
    SectionsWritten();
    TableWritten();
    FiveBodies(SECTIONS);
    TableWords();
    assert CLARISSA == [67, 108, 97, 114, 105, 115, 115, 97];
    assert VALUE_BYTES + [] == VALUE_BYTES;
  }

  // ---------------------------------------------------------------- the premises hold

  lemma NumbersInHeader()
    ensures LastNumber(HEADER, WINDOW_SIZE) == Some(16) && LastNumber(HEADER, TRACES) == Some(2)
    ensures LastNumber(HEADER, SWEEP_POINTS) == Some(3) && WINDOW_SIZE in PropertyNames(HEADER)
  {
    hide LastNumber, HEADER, WINDOW_SIZE, TRACES, SWEEP_POINTS;
    NamesInHeader();
    assert PropertyNames(HEADER)[0] == WINDOW_SIZE;
    LastNumberAt(HEADER, 0, WINDOW_SIZE, 16);
    LastNumberAt(HEADER, 1, TRACES, 2);
    LastNumberAt(HEADER, 2, SWEEP_POINTS, 3);
  }

  lemma WindowSizeInHeader()
    ensures HEADER[0] == Property(WINDOW_SIZE, Integer(16)) && |WINDOW_SIZE| == 15
  {
  }

  lemma TracesInHeader()
    ensures HEADER[1] == Property(TRACES, Integer(2)) && |TRACES| == 10
  {
  }

  lemma SweepPointsInHeader()
    ensures HEADER[2] == Property(SWEEP_POINTS, Integer(3)) && |SWEEP_POINTS| == 16
  {
  }

  lemma NamesInHeader()
    ensures |HEADER| == 5 && HEADER[0] == Property(WINDOW_SIZE, Integer(16))
    ensures HEADER[1] == Property(TRACES, Integer(2)) && HEADER[2] == Property(SWEEP_POINTS, Integer(3))
    ensures |WINDOW_SIZE| == 15 && |TRACES| == 10 && |SWEEP_POINTS| == 16 && |HEADER[3].name| == |HEADER[4].name| == 1
  {
    hide WINDOW_SIZE, TRACES, SWEEP_POINTS;
    WindowSizeInHeader();
    TracesInHeader();
    SweepPointsInHeader();
  }

  lemma Numbered()
    ensures SourceNumbered(Sources(), SECTION_HEADER) == Some(0) && SourceNumbered(Sources(), SECTION_TYPE) == Some(1)
    ensures SourceNumbered(Sources(), SECTION_SWEEP) == Some(2) && SourceNumbered(Sources(), SECTION_TRACE) == Some(3)
    ensures SourceNumbered(Sources(), SECTION_VALUE) == Some(4)
  {
    hide SourceNumbered, HEADER, NUMBER, COUNT, TIME, OTHER, GROUP, W0, W1;
    var sources := Sources();
    assert Number(sources[0]) == 0 && Number(sources[1]) == 1 && Number(sources[2]) == 2 && Number(sources[3]) == 3
        && Number(sources[4]) == 4;
  }

  lemma FileContents()
    ensures HeaderOf(Sources()) == HEADER && FileTypes(Sources()) == TYPES
    ensures TypesOf(Sources()) == MODEL.types && SweepsOf(Sources()) == MODEL.sweeps
            && TracesOf(Sources()) == MODEL.traces
    ensures Windowed(Sources()) && WindowIn(Sources()) == Ok(Some(16))
  {
    hide SourceNumbered, TypeTableOf, TypeChunks, RefChunks, Denoted, HEADER, NUMBER, COUNT, TIME, OTHER, GROUP, W0, W1,
         LastNumber, PropertyNames;
    Numbered();
    NumbersInHeader();
    TwoDefinitions(NUMBER, COUNT);
    assert NUMBER.id == 300 && COUNT.id == -2 by { TypeIds(); }
    TableOfTwo(NUMBER, COUNT);
    TwoReferences(TIME, OTHER);
    OneGroup();
  }

  lemma TypeIds()
    ensures NUMBER.id == 300 && COUNT.id == -2
  {
  }

  lemma OneGroup()
    ensures Denoted(map[], [GroupChunk(GROUP)]) == [GroupChunk(GROUP)]
  {
    hide GROUP;
    var a: Chunk<Datum> := GroupChunk(GROUP);
    assert [a][1..] == [];
    assert Denoted(map[], [a]) == [Denotes(map[], a)] + Denoted(map[], [a][1..]);
  }

  const GROUPS: Children := [GroupChunk(GROUP)]

  lemma GroupLayout()
    ensures Layout(TYPES, GROUPS, Some(16)) == Ok(ITEMS) && Leaves(GROUPS) == [AA, BBB]
    ensures Placed(TYPES, GROUPS, Some(16)) == [AA, BBB]
    ensures AddSlots(map[], ITEMS, 0) == map[11 := 0, 12 := 16] && Total(ITEMS) == 32
  {
    hide TYPES, AA, BBB;
    assert GROUPS[1..] == [] && forall c :: c in GROUPS ==> c.GroupChunk?;
    assert Leaves(GROUPS) == [AA, BBB] + Leaves(GROUPS[1..]);
    SamePlaced(TYPES, GROUPS, Some(16));
    WindowLayout(TYPES, GROUPS, 16);
    assert AA.id == 11 && BBB.id == 12 by { MemberIdsAre(); }
    assert SlotsOf([AA, BBB], 16) == ITEMS;
    assert Layout(TYPES, GROUPS, Some(16)).value == SlotsOf(Leaves(GROUPS), 16) == ITEMS;
    UniformTotal([AA, BBB], 16);
    assert ITEMS[..1] == [ITEMS[0]] && [ITEMS[0]][..0] == [] && Total([ITEMS[0]]) == 16;
    assert AddSlots(map[], [ITEMS[0]], 0) == map[11 := 0];
  }

  lemma MemberIdsAre()
    ensures AA.id == 11 && BBB.id == 12
  {
  }

  lemma FileIsWritable()
    ensures Writable(Sources(), Nothing) && LayoutIn(Sources()) == Ok(ITEMS)
  {
    hide EncSources, SourceNumbered, FileTypes, HeaderOf, TracesOf, Windowed, WindowIn, EncodableSource, HEADER, NUMBER,
         COUNT, TIME, OTHER, GROUP, W0, W1, Layout, TYPES;
    Numbered();
    FileContents();
    FileWritten();
    GroupLayout();
    AllEncodable();
    var sources := Sources();
    assert forall k :: 0 <= k < 5 ==> Number(sources[k]) == k;
  }

  lemma AllEncodable()
    ensures forall k :: 0 <= k < 5 ==> EncodableSource(Sources()[k])
  {
    hide W0, W1;
  }

  lemma WindowsFit()
    ensures LegalWindows(SETUP, GROUPS, 0, 3, WINDOWS)
  {
    hide Placed, Layout, AddSlots, Total;
    GroupLayout();
    assert WINDOWS[1..] == [WINDOWS[1]] && [WINDOWS[1]][1..] == [];
    assert LegalWindows(SETUP, GROUPS, 3, 3, [WINDOWS[1]][1..]);
    assert Fits(SETUP, GROUPS, WindowFilling(2, 1, WINDOWS[1].pads), 3);
    assert LegalWindows(SETUP, GROUPS, 2, 3, [WINDOWS[1]]);
  }

  lemma TableFits()
    ensures Typed(SETUP, GROUPS, TABLE, 3) && LegalWindows(SETUP, GROUPS, 0, 3, WINDOWS)
  {
    hide Placed, Layout, AddSlots, Total, LegalWindows;
    GroupLayout();
    WindowsFit();
  }

  lemma FileHoldsTable()
    ensures HoldsTable(Sources(), Nothing, SETUP, ITEMS, TABLE, 3, InWindows(WINDOWS))
  {
    hide EncSources, SourceNumbered, FileTypes, HeaderOf, TracesOf, Windowed, WindowIn, HEADER, Writable, LayoutIn,
         Typed, LegalWindows, EncTable, W0, W1, Leaves, LastNumber, AddSlots, Total;
    Numbered();
    FileContents();
    NumbersInHeader();
    FileIsWritable();
    GroupLayout();
    TableFits();
    PayloadBytes();
  }

  lemma NamesFind()
    ensures TraceByName(GROUPS, [97, 97]) == Ok(AA) && TraceByName(GROUPS, [98, 98, 98]) == Ok(BBB)
  {
    assert Names(GROUPS) == [[103]];
    assert MemberNames([AA, BBB]) == [[97, 97], [98, 98, 98]];
    assert MemberNames([AA, BBB])[..1] == [[97, 97]];
  }

  lemma ExampleOpens()
    ensures OpenFile(FileBytes()) == Ok(MODEL)
  {
    hide EncSources, OpenFile, Writable, Contents, FileBytes;
    FileWritten();
    FileIsWritable();
    FileIsReadBack(Sources(), Nothing);
    ModelIsRead();
  }

  lemma ExampleSignal(trace: TypeRef)
    requires trace == AA || trace == BBB
    ensures ParamValues(MODEL, FileBytes()) == Ok(Some(Meanings(TABLE.params, Double)))
    ensures trace.id in TABLE.cols
    ensures Signal(MODEL, FileBytes(), trace.name) == Ok(Some(Meanings(TABLE.cols[trace.id], BodyOf(TYPES, trace))))
  {
    hide EncSources, HoldsTable, Placed, TraceByName, Signal, ParamValues, OpenFile, Sources, ReadableIn, FileBytes,
         Contents, SourceNumbered, TracesOf;
    FileWritten();
    FileHoldsTable();
    FileContents();
    ModelIsRead();
    GroupLayout();
    NamesFind();
    EverythingReadable();
    SignalsReadBack(Sources(), Nothing, SETUP, ITEMS, TABLE, 3, InWindows(WINDOWS), trace);
  }

  /** What the library returns for the file. The trace names are "aa" and "bbb". */
  ghost predicate Returned(m: FileModel, buf: Bytes) {
    && SignalNames(m) == Ok([[97, 97], [98, 98, 98]])
    && ParamValues(m, buf) == Ok(Some([DoubleValue(7), DoubleValue(0x4000000000000000), DoubleValue(9)]))
    && Signal(m, buf, [97, 97]) == Ok(Some([DoubleValue(1), DoubleValue(2), DoubleValue(3)]))
    && Signal(m, buf, [98, 98, 98]) == Ok(Some([Int32Value(4), Int32Value(-5), Int32Value(6)]))
  }

  /** The bytes are opened to the contents, and the names and values of the signals are those written. */
  lemma ExampleReadsBack()
    ensures OpenFile(FileBytes()) == Ok(MODEL) && Returned(MODEL, FileBytes())
  {
    hide OpenFile, Signal, ParamValues, SignalNames, FileBytes, MODEL;
    ExampleOpens();
    ExampleSignal(AA);
    ExampleSignal(BBB);
    ColumnMeanings();
    NamesOfFile();
  }

  lemma EverythingReadable()
    ensures ReadableIn(SETUP, [AA], 3, InWindows(WINDOWS)) && ReadableIn(SETUP, [BBB], 3, InWindows(WINDOWS))
  {
  }

  lemma ColumnMeanings()
    ensures Meanings(TABLE.params, Double) == [DoubleValue(7), DoubleValue(0x4000000000000000), DoubleValue(9)]
    ensures Meanings(TABLE.cols[11], Double) == [DoubleValue(1), DoubleValue(2), DoubleValue(3)]
    ensures Meanings(TABLE.cols[12], Int32) == [Int32Value(4), Int32Value(-5), Int32Value(6)]
  {
  }

  lemma NamesOfFile()
    ensures SignalNames(MODEL) == Ok([[97, 97], [98, 98, 98]])
  {
    hide HEADER, NUMBER, COUNT, TIME, OTHER, Leaves;
    GroupLayout();
    assert MODEL.traces == Some(GROUPS);
    assert MemberNames([AA, BBB]) == [[97, 97], [98, 98, 98]];
  }

  lemma ModelIsRead()
    ensures Contents(Sources(), Nothing) == MODEL
  {
    hide SourceNumbered, FileTypes, HeaderOf, TypesOf, SweepsOf, TracesOf, Windowed, WindowIn, HEADER, NUMBER, COUNT,
         TIME, OTHER, GROUP, W0, W1, LayoutIn, AddSlots, Total, PositionOf;
    Numbered();
    FileContents();
    FileIsWritable();
    GroupLayout();
    ValuesPlace();
  }

  lemma ValuesPlace()
    ensures PositionOf(Sources(), Nothing, SECTION_VALUE) == 348
  {
    hide SourceNumbered, WrittenSections, HEADER_BYTES, TYPE_BYTES, SWEEP_BYTES, TRACE_BYTES, VALUE_BYTES, Sources,
         Body;
    Numbered();
    SectionsWritten();
    var s := SECTIONS[..4];
    assert s == [SECTIONS[0]] + ([SECTIONS[1]] + ([SECTIONS[2]] + ([SECTIONS[3]] + [])));
    MoreBody(SECTIONS[0], [SECTIONS[1]] + ([SECTIONS[2]] + ([SECTIONS[3]] + [])));
    MoreBody(SECTIONS[1], [SECTIONS[2]] + ([SECTIONS[3]] + []));
    MoreBody(SECTIONS[2], [SECTIONS[3]] + []);
    MoreBody(SECTIONS[3], []);
    NoSections(0);
  }
}
