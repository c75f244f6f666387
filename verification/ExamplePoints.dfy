/** A file whose values are stored point by point, written out byte by byte with its sections in reverse order: a sweep
    listed among the traces, a trace at the top level, and a group. It meets every premise of the end-to-end theorem. */
module ExamplePoints {
  import opened Base
  import opened Words
  import opened Properties
  import opened Types
  import opened Values
  import opened Chunks
  import opened Containers
  import opened Traces
  import opened Offsets
  import opened Sweeps
  import opened Runs
  import opened SweepTables
  import opened Sections
  import opened File
  import opened FileRoundTrip
  import opened EndToEnd
  import opened Literal

  // ---------------------------------------------------------------- the file

  // Properties "PSF sweep points" = 2 and "PSF traces" = 7, which does not make the values windowed.
  const H0: Bytes :=
    [0, 0, 0, 34] + (([0, 0, 0, 16] + [80, 83, 70, 32, 115, 119, 101, 101, 112, 32, 112, 111, 105, 110, 116, 115])
    + [0, 0, 0, 2])
  const H1: Bytes :=
    [0, 0, 0, 34] + (([0, 0, 0, 10] + [80, 83, 70, 32, 116, 114, 97, 99, 101, 115] + [0, 0]) + [0, 0, 0, 7])

  // Types 1, "n", and 2, "a", of doubles with the keys "n" and "sweep", and 3, "f", of 8-bit integers.
  const T0: Bytes :=
    ([0, 0, 0, 16] + ([0, 0, 0, 1] + (([0, 0, 0, 1] + [110] + [0, 0, 0]) + ([0, 0, 0, 0] + [0, 0, 0, 11]))))
    + ([0, 0, 0, 33] + (([0, 0, 0, 3] + [107, 101, 121] + [0]) + ([0, 0, 0, 1] + [110] + [0, 0, 0])))
  const T1: Bytes :=
    ([0, 0, 0, 16] + ([0, 0, 0, 2] + (([0, 0, 0, 1] + [97] + [0, 0, 0]) + ([0, 0, 0, 0] + [0, 0, 0, 11]))))
    + ([0, 0, 0, 33] + (([0, 0, 0, 3] + [107, 101, 121] + [0]) + ([0, 0, 0, 5] + [115, 119, 101, 101, 112]
    + [0, 0, 0])))
  const T2: Bytes :=
    ([0, 0, 0, 16] + ([0, 0, 0, 3] + (([0, 0, 0, 1] + [102] + [0, 0, 0]) + ([0, 0, 0, 0] + [0, 0, 0, 1]))))

  // Sweeps 10, "t", of type 2, and 13, "zz", of type 1; the first is listed among the traces, too.
  const S0: Bytes := [0, 0, 0, 16] + ([0, 0, 0, 10] + (([0, 0, 0, 1] + [116] + [0, 0, 0]) + [0, 0, 0, 2]))
  const S1: Bytes := [0, 0, 0, 16] + ([0, 0, 0, 13] + (([0, 0, 0, 2] + [122, 122] + [0, 0]) + [0, 0, 0, 1]))

  // Trace 11, "o", of type 1, and group 20, "g", of the traces 12, "i", of type 1, and 14, "b", of type 3.
  const O0: Bytes := [0, 0, 0, 16] + ([0, 0, 0, 11] + (([0, 0, 0, 1] + [111] + [0, 0, 0]) + [0, 0, 0, 1]))
  const M0: Bytes := [0, 0, 0, 16] + ([0, 0, 0, 12] + (([0, 0, 0, 1] + [105] + [0, 0, 0]) + [0, 0, 0, 1]))
  const M1: Bytes := [0, 0, 0, 16] + ([0, 0, 0, 14] + (([0, 0, 0, 1] + [98] + [0, 0, 0]) + [0, 0, 0, 3]))
  const G0: Bytes :=
    [0, 0, 0, 17] + ([0, 0, 0, 20] + (([0, 0, 0, 1] + [103] + [0, 0, 0]) + ([0, 0, 0, 2] + (M0 + M1))))

  // Two points: the parameter, and behind their tags and identifiers the traces.
  const D0: Bytes :=
    [0, 0, 0, 16] + ([0, 0, 0, 10] + (([0, 0, 0, 0] + [0, 0, 0, 7])
      + (((([0, 0, 0, 16] + [0, 0, 0, 11]) + ([0, 0, 0, 0] + [0, 0, 0, 1])) + ([0, 0, 0, 17] + [0, 0, 0, 20]))
         + ([0, 0, 0, 0] + [0, 0, 0, 3]) + [0, 0, 0, 255])))
  const D1: Bytes :=
    [0, 0, 0, 16] + ([0, 0, 0, 10] + (([0, 0, 0, 0] + [0, 0, 0, 8])
      + (((([0, 0, 0, 16] + [0, 0, 0, 11]) + ([0, 0, 0, 0] + [0, 0, 0, 2])) + ([0, 0, 0, 17] + [0, 0, 0, 20]))
         + ([0, 0, 0, 0] + [0, 0, 0, 4]) + [1, 2, 3, 5])))

  const VALUE_BYTES := [0, 0, 0, 21, 0, 0, 0, 116] + (D0 + D1)
  const TRACE_BYTES :=
    [0, 0, 0, 21, 0, 0, 0, 242, 0, 0, 0, 22, 0, 0, 0, 232]
    + ((S0 + (O0 + G0)) + [0, 0, 0, 19, 0, 0, 0, 2, 1, 2])
  const SWEEP_BYTES := [0, 0, 0, 21, 0, 0, 1, 38] + ((S0 + S1) + [0, 0, 0, 3])
  const TYPE_BYTES :=
    [0, 0, 0, 21, 0, 0, 1, 178, 0, 0, 0, 22, 0, 0, 1, 170] + ((T0 + (T1 + T2)) + [0, 0, 0, 19, 0, 0, 0, 0])
  const HEADER_BYTES := [0, 0, 0, 21, 0, 0, 1, 238] + (H0 + H1)
  const TABLE_BYTES: Bytes :=
    ([0, 0, 0, 4, 0, 0, 0, 4]
    + ([0, 0, 0, 3, 0, 0, 0, 116]
    + ([0, 0, 0, 2, 0, 0, 0, 242]
    + ([0, 0, 0, 1, 0, 0, 1, 38]
    + [0, 0, 0, 0, 0, 0, 1, 178]))))

  function FileBytes(): Bytes {
    [0, 0, 0, 0] + ((VALUE_BYTES + (TRACE_BYTES + (SWEEP_BYTES + (TYPE_BYTES + HEADER_BYTES))))
      + (TABLE_BYTES + ([67, 108, 97, 114, 105, 115, 115, 97] + [0, 0, 1, 238])))
  }

  // ---------------------------------------------------------------- its contents

  const HEADER: seq<Property> :=
    [Property([80, 83, 70, 32, 115, 119, 101, 101, 112, 32, 112, 111, 105, 110, 116, 115], Integer(2)),
     Property([80, 83, 70, 32, 116, 114, 97, 99, 101, 115], Integer(7))]
  const NODE := TypeDef(1, [110], Double, [Property([107, 101, 121], Text([110]))])
  const AXIS := TypeDef(2, [97], Double, [Property([107, 101, 121], Text([115, 119, 101, 101, 112]))])
  const FLAG := TypeDef(3, [102], Int8, [])
  const TIME := TypeRef(10, [116], 2, [])
  const OTHER := TypeRef(13, [122, 122], 1, [])
  const TOP := TypeRef(11, [111], 1, [])
  const INNER := TypeRef(12, [105], 1, [])
  const BIT := TypeRef(14, [98], 3, [])
  const GROUP := GroupDef(20, [103], [INNER, BIT])

  const TYPES: TypeTable := map[1 := NODE, 2 := AXIS, 3 := FLAG]
  const TABLE := Table(
    [DoubleDatum(7), DoubleDatum(8)],
    map[11 := [DoubleDatum(1), DoubleDatum(2)], 12 := [DoubleDatum(3), DoubleDatum(4)],
        14 := [Int8Datum(255), Int8Datum(0x01020305)]])
  const ITEMS := [Header(16, 11), Slot(11, 8), Header(17, 20), Slot(12, 8), Slot(14, 4)]
  const SETUP := Setup(TYPES, map[11 := 8, 12 := 24, 14 := 32], 10, Double, None, 36)
  const TRACED: Children := [RefChunk(TIME), RefChunk(TOP), GroupChunk(GROUP)]

  function WrittenTraces(): seq<Chunk<Datum>> {
    [RefChunk(TIME), RefChunk(TOP), GroupChunk(GROUP)]
  }

  function Sources(): (r: seq<Source>)
    ensures |r| == 5
  {
    [SweptSource(None, D0 + D1), TraceSource(WrittenTraces(), [1, 2]), SweepSource([TIME, OTHER], true),
     TypeSource([NODE, AXIS, FLAG], []), HeaderSource(HEADER, false)]
  }

  /** The opened file. */
  const MODEL := FileModel(
    HEADER, Some([TypeChunk(NODE), TypeChunk(AXIS), TypeChunk(FLAG)]), Some([RefChunk(TIME), RefChunk(OTHER)]),
    Some(TRACED), Some(SweptValues(false, map[11 := 8, 12 := 24, 14 := 32], 36, 12)), None)

  // ---------------------------------------------------------------- the bytes are those of the contents

  lemma SmallWords()
    ensures EncInt(0) == [0, 0, 0, 0] && EncInt(1) == [0, 0, 0, 1]
    ensures EncInt(2) == [0, 0, 0, 2] && EncInt(3) == [0, 0, 0, 3]
    ensures EncInt(5) == [0, 0, 0, 5] && EncInt(7) == [0, 0, 0, 7]
    ensures EncInt(8) == [0, 0, 0, 8] && EncInt(10) == [0, 0, 0, 10]
    ensures EncInt(11) == [0, 0, 0, 11] && EncInt(12) == [0, 0, 0, 12]
    ensures EncInt(13) == [0, 0, 0, 13] && EncInt(14) == [0, 0, 0, 14]
    ensures EncInt(16) == [0, 0, 0, 16] && EncInt(17) == [0, 0, 0, 17]
    ensures EncInt(20) == [0, 0, 0, 20] && EncInt(22) == [0, 0, 0, 22]
    ensures EncInt(33) == [0, 0, 0, 33] && EncInt(34) == [0, 0, 0, 34]
  {
  }

  lemma HeaderBytes()
    ensures EncProperty(HEADER[0], Nothing) == H0 && EncProperty(HEADER[1], Nothing) == H1
  {
    hide EncInt, EncString;
    SmallWords();
    StringBytes(HEADER[0].name);
    StringBytes(HEADER[1].name);
  }

  lemma NodeBytes()
    ensures EncTypeDef(NODE, Nothing) == T0 && EncTypeDef(FLAG, Nothing) == T2
  {
    hide EncInt, EncString, EncProperties;
    SmallWords();
    StringBytes([110]);
    StringBytes([102]);
    StringBytes([107, 101, 121]);
    OneProperty(NODE.props[0]);
    NoProperties();
  }

  lemma AxisBytes()
    ensures EncTypeDef(AXIS, Nothing) == T1
  {
    hide EncInt, EncString, EncProperties;
    SmallWords();
    StringBytes([97]);
    StringBytes([107, 101, 121]);
    StringBytes([115, 119, 101, 101, 112]);
    OneProperty(AXIS.props[0]);
  }

  lemma NoProperties()
    ensures EncProperties([], Nothing) == []
  {
  }

  lemma SweepBytes()
    ensures EncRef(TIME, Nothing) == S0 && EncRef(OTHER, Nothing) == S1 && EncRef(TOP, Nothing) == O0
  {
    hide EncInt, EncString;
    SmallWords();
    StringBytes(TIME.name);
    StringBytes(OTHER.name);
    StringBytes(TOP.name);
  }

  lemma MemberBytes()
    ensures EncRef(INNER, Nothing) == M0 && EncRef(BIT, Nothing) == M1
  {
    hide EncInt, EncString;
    SmallWords();
    StringBytes(INNER.name);
    StringBytes(BIT.name);
  }

  lemma GroupBytes()
    ensures EncGroup(GROUP, Nothing) == G0
  {
    hide EncInt, EncString, EncRef, M0, M1;
    SmallWords();
    MemberBytes();
    StringBytes(GROUP.name);
    MoreMembers(BIT, []);
    MoreMembers(INNER, [BIT] + []);
    assert [INNER] + ([BIT] + []) == [INNER, BIT];
  }

  // ---------------------------------------------------------------- sections

  lemma Sizes()
    ensures |D0| == |D1| == 52 && |S0| == |S1| == |O0| == 20 && |G0| == 60
    ensures |T0| == 44 && |T1| == 48 && |T2| == 24 && |H0| == 28 && |H1| == 24
  {
  }

  lemma SectionWords()
    ensures EncWord(21) + EncWord(116) == [0, 0, 0, 21, 0, 0, 0, 116]
    ensures EncWord(21) + EncWord(242) + EncWord(22) + EncWord(232)
            == [0, 0, 0, 21, 0, 0, 0, 242, 0, 0, 0, 22, 0, 0, 0, 232]
    ensures EncWord(19) + EncWord(2) + [1, 2] == [0, 0, 0, 19, 0, 0, 0, 2, 1, 2]
    ensures EncWord(21) + EncWord(294) == [0, 0, 0, 21, 0, 0, 1, 38] && EncWord(3) == [0, 0, 0, 3]
  {
  }

  lemma MoreSectionWords()
    ensures EncWord(21) + EncWord(434) + EncWord(22) + EncWord(426)
            == [0, 0, 0, 21, 0, 0, 1, 178, 0, 0, 0, 22, 0, 0, 1, 170]
    ensures EncWord(19) + EncWord(0) + [] == [0, 0, 0, 19, 0, 0, 0, 0]
    ensures EncWord(21) + EncWord(494) == [0, 0, 0, 21, 0, 0, 1, 238]
  {
  }

  lemma ValueSection()
    ensures EncSection(SweptSource(None, D0 + D1), 4, Nothing) == VALUE_BYTES && |VALUE_BYTES| == 112
  {
    hide EncWord, D0, D1;
    Sizes();
    SectionWords();
    Associate(EncWord(21), EncWord(116), D0 + D1);
    assert [] + (D0 + D1) == D0 + D1;
  }

  lemma TraceSection()
    ensures EncSection(TraceSource(WrittenTraces(), [1, 2]), 116, Nothing) == TRACE_BYTES && |TRACE_BYTES| == 126
  {
    hide EncRef, EncGroup, EncChildren, EncWord, TIME, TOP, GROUP, S0, O0, G0;
    Sizes();
    SweepBytes();
    GroupBytes();
    var a, b, c: Chunk<Datum> := RefChunk(TIME), RefChunk(TOP), GroupChunk(GROUP);
    MoreChildren(c, []);
    MoreChildren(b, [c] + []);
    MoreChildren(a, [b] + ([c] + []));
    assert [a] + ([b] + ([c] + [])) == WrittenTraces();
    SectionWords();
    IndexedBytes(116, WrittenTraces(), [1, 2], S0 + (O0 + G0), [0, 0, 0, 21, 0, 0, 0, 242, 0, 0, 0, 22, 0, 0, 0, 232],
                 [0, 0, 0, 19, 0, 0, 0, 2, 1, 2]);
  }

  lemma SweepSection()
    ensures EncSection(SweepSource([TIME, OTHER], true), 242, Nothing) == SWEEP_BYTES && |SWEEP_BYTES| == 52
  {
    hide EncRef, EncChildren, EncWord, TIME, OTHER, S0, S1, RefChunks;
    Sizes();
    TwoReferences(TIME, OTHER);
    SweepBytes();
    var a, b: Chunk<Datum> := RefChunk(TIME), RefChunk(OTHER);
    MoreChildren(b, []);
    MoreChildren(a, [b] + []);
    assert [a] + ([b] + []) == [a, b];
    SectionWords();
    SimpleBytes(SweepKind, 242, RefChunks([TIME, OTHER]), true, S0 + S1, [0, 0, 0, 21, 0, 0, 1, 38]);
  }

  lemma TypeSection()
    ensures EncSection(TypeSource([NODE, AXIS, FLAG], []), 294, Nothing) == TYPE_BYTES && |TYPE_BYTES| == 140
  {
    hide EncTypeDef, EncChildren, EncWord, NODE, AXIS, FLAG, T0, T1, T2, TypeChunks;
    Sizes();
    ThreeDefinitions(NODE, AXIS, FLAG);
    NodeBytes();
    AxisBytes();
    var a, b, c: Chunk<Datum> := TypeChunk(NODE), TypeChunk(AXIS), TypeChunk(FLAG);
    MoreChildren(c, []);
    MoreChildren(b, [c] + []);
    MoreChildren(a, [b] + ([c] + []));
    assert [a] + ([b] + ([c] + [])) == [a, b, c];
    MoreSectionWords();
    IndexedBytes(294, TypeChunks([NODE, AXIS, FLAG]), [], T0 + (T1 + T2),
                 [0, 0, 0, 21, 0, 0, 1, 178, 0, 0, 0, 22, 0, 0, 1, 170], [0, 0, 0, 19, 0, 0, 0, 0]);
  }

  lemma HeaderSection()
    ensures EncSection(HeaderSource(HEADER, false), 434, Nothing) == HEADER_BYTES && |HEADER_BYTES| == 60
  {
    hide EncProperty, EncChildren, EncWord, HEADER, H0, H1, PropertyChunks;
    Sizes();
    assert |HEADER| == 2 by { NamesInHeader(); }
    var a, b: Chunk<Datum> := PropertyChunk(HEADER[0]), PropertyChunk(HEADER[1]);
    ManyProperties(HEADER, [a] + ([b] + []));
    HeaderBytes();
    MoreChildren(b, []);
    MoreChildren(a, [b] + []);
    MoreSectionWords();
    SimpleBytes(HeaderKind, 434, PropertyChunks(HEADER), false, H0 + H1, [0, 0, 0, 21, 0, 0, 1, 238]);
    assert H0 + H1 + [] == H0 + H1;
  }

  // ---------------------------------------------------------------- points

  lemma DataBytes()
    ensures EncBits(7) == [0, 0, 0, 0] + [0, 0, 0, 7] && EncBits(8) == [0, 0, 0, 0] + [0, 0, 0, 8]
    ensures EncBits(1) == [0, 0, 0, 0] + [0, 0, 0, 1] && EncBits(2) == [0, 0, 0, 0] + [0, 0, 0, 2]
    ensures EncBits(3) == [0, 0, 0, 0] + [0, 0, 0, 3] && EncBits(4) == [0, 0, 0, 0] + [0, 0, 0, 4]
    ensures EncInt(255) == [0, 0, 0, 255] && EncInt(0x01020305) == [1, 2, 3, 5]
    ensures EncWord(16) == [0, 0, 0, 16] && EncWord(17) == [0, 0, 0, 17] && EncInt(10) == [0, 0, 0, 10]
    ensures EncInt(11) == [0, 0, 0, 11] && EncInt(20) == [0, 0, 0, 20]
  {
  }

  lemma {:induction false} PiecesBytes(f: Filling)
    ensures EncPieces(TABLE.cols, f, ITEMS)
         == (((EncPiece(TABLE.cols, f, ITEMS[0]) + EncPiece(TABLE.cols, f, ITEMS[1]))
              + EncPiece(TABLE.cols, f, ITEMS[2]))
            + EncPiece(TABLE.cols, f, ITEMS[3])) + EncPiece(TABLE.cols, f, ITEMS[4])
  {
    hide EncPiece, EncPieces, TABLE;
    MorePieces(TABLE.cols, f, ITEMS, 4);
    MorePieces(TABLE.cols, f, ITEMS, 3);
    MorePieces(TABLE.cols, f, ITEMS, 2);
    MorePieces(TABLE.cols, f, ITEMS, 1);
    MorePieces(TABLE.cols, f, ITEMS, 0);
    assert ITEMS[..5] == ITEMS;
    assert [] + EncPiece(TABLE.cols, f, ITEMS[0]) == EncPiece(TABLE.cols, f, ITEMS[0]);
  }

  lemma {:induction false} MorePieces(cols: map<int, seq<Datum>>, f: Filling, items: seq<Item>, k: nat)
    requires k < |items|
    ensures EncPieces(cols, f, items[..k + 1]) == EncPieces(cols, f, items[..k]) + EncPiece(cols, f, items[k])
    ensures EncPieces(cols, f, items[..0]) == []
  {
    hide EncPiece;
    assert items[..k + 1][..k] == items[..k];
  }

  lemma {:induction false} OneItem(d: Datum)
    ensures EncItems([d]) == EncDatum(d)
  {
    hide EncDatum;
    MoreItems(d, []);
    assert [d] + [] == [d];
  }

  lemma {:induction false} PointBytes(i: nat, param: Datum, a: Datum, b: Datum, c: Datum)
    requires i < 2 && TABLE.params[i] == param && TABLE.cols[11][i] == a && TABLE.cols[12][i] == b
             && TABLE.cols[14][i] == c
    ensures EncPoint(TABLE, ITEMS, 10, i)
         == EncWord(16) + (EncInt(10) + (EncDatum(param)
            + ((((EncWord(16) + EncInt(11)) + EncDatum(a)) + (EncWord(17) + EncInt(20))) + EncDatum(b) + EncDatum(c))))
  {
    hide EncItems, EncInt, EncWord, EncPieces, EncDatum;
    PiecesBytes(PointFilling(i));
    assert TABLE.params[i..i + 1] == [param];
    assert RunOf(TABLE.cols, 11, i, 1) == [a] && RunOf(TABLE.cols, 12, i, 1) == [b]
        && RunOf(TABLE.cols, 14, i, 1) == [c];
    OneItem(param);
    OneItem(a);
    OneItem(b);
    OneItem(c);
    assert [] + EncDatum(a) == EncDatum(a) && [] + EncDatum(b) == EncDatum(b) && [] + EncDatum(c) == EncDatum(c);
  }

  lemma PayloadBytes()
    ensures EncTable(SETUP, TABLE, ITEMS, 2, ByPoint) == D0 + D1
  {
    hide EncPoint, EncBits, EncInt, EncWord;
    DataBytes();
    PointBytes(0, DoubleDatum(7), DoubleDatum(1), DoubleDatum(3), Int8Datum(255));
    PointBytes(1, DoubleDatum(8), DoubleDatum(2), DoubleDatum(4), Int8Datum(0x01020305));
    assert EncPoints(TABLE, ITEMS, 10, 2, 2) == [];
    assert EncPoints(TABLE, ITEMS, 10, 1, 2) == D1 + [] == D1;
  }

  // ---------------------------------------------------------------- the file

  const SECTIONS := [
    SectionBytes(4, VALUE_BYTES), SectionBytes(3, TRACE_BYTES), SectionBytes(2, SWEEP_BYTES),
    SectionBytes(1, TYPE_BYTES), SectionBytes(0, HEADER_BYTES)]

  lemma SectionsWritten()
    ensures WrittenSections(Sources(), Nothing) == SECTIONS
    ensures |VALUE_BYTES| == 112 && |TRACE_BYTES| == 126 && |SWEEP_BYTES| == 52 && |TYPE_BYTES| == 140
    ensures |HEADER_BYTES| == 60
  {
    hide EncSection, HEADER_BYTES, TYPE_BYTES, SWEEP_BYTES, TRACE_BYTES, VALUE_BYTES, HEADER, NODE, AXIS, FLAG, TIME,
         OTHER, TOP, GROUP, D0, D1, WrittenSections, WrittenTraces;
    HeaderSection();
    TypeSection();
    SweepSection();
    TraceSection();
    ValueSection();
    FiveSections(Sources(), [VALUE_BYTES, TRACE_BYTES, SWEEP_BYTES, TYPE_BYTES, HEADER_BYTES],
                 [4, 116, 242, 294, 434]);
  }

  lemma TableWords()
    ensures EncInt(4) + EncWord(4) == [0, 0, 0, 4, 0, 0, 0, 4] && EncInt(3) + EncWord(116) == [0, 0, 0, 3, 0, 0, 0, 116]
    ensures EncInt(2) + EncWord(242) == [0, 0, 0, 2, 0, 0, 0, 242]
            && EncInt(1) + EncWord(294) == [0, 0, 0, 1, 0, 0, 1, 38]
    ensures EncInt(0) + EncWord(434) == [0, 0, 0, 0, 0, 0, 1, 178] && EncWord(494) == [0, 0, 1, 238]
            && EncInt(0) == [0, 0, 0, 0]
  {
  }

  lemma TableWritten()
    ensures EncEntries(EntriesOf(SECTIONS, 4)) == TABLE_BYTES
  {
    hide EncEntries, EntriesOf, EncInt, EncWord, HEADER_BYTES, TYPE_BYTES, SWEEP_BYTES, TRACE_BYTES, VALUE_BYTES,
         WrittenSections, Sources;
    SectionsWritten();
    FiveEntries(SECTIONS, 116, 242, 294, 434);
    TableWords();
  }

  lemma FileWritten()
    ensures EncSources(Sources(), Nothing) == FileBytes() && |FileBytes()| == 546
  {
    hide EncEntries, EntriesOf, EncInt, EncWord, Body, HEADER_BYTES, TYPE_BYTES, SWEEP_BYTES, TRACE_BYTES, VALUE_BYTES,
         Sources, WrittenSections;
    SectionsWritten();
    TableWritten();
    FiveBodies(SECTIONS);
    TableWords();
    assert CLARISSA == [67, 108, 97, 114, 105, 115, 115, 97];
    assert HEADER_BYTES + [] == HEADER_BYTES;
  }

  // ---------------------------------------------------------------- the premises hold

  lemma NamesInHeader()
    ensures |HEADER| == 2 && HEADER[0] == Property(SWEEP_POINTS, Integer(2))
            && HEADER[1] == Property(TRACES, Integer(7))
    ensures |WINDOW_SIZE| == 15 && |TRACES| == 10 && |SWEEP_POINTS| == 16
  {
  }

  lemma NumbersInHeader()
    ensures LastNumber(HEADER, SWEEP_POINTS) == Some(2) && WINDOW_SIZE !in PropertyNames(HEADER)
  {
    hide LastNumber, HEADER, WINDOW_SIZE, TRACES, SWEEP_POINTS;
    NamesInHeader();
    LastNumberAt(HEADER, 0, SWEEP_POINTS, 2);
    assert forall k :: 0 <= k < |PropertyNames(HEADER)| ==> PropertyNames(HEADER)[k] == HEADER[k].name;
  }

  lemma Numbered()
    ensures SourceNumbered(Sources(), SECTION_HEADER) == Some(4) && SourceNumbered(Sources(), SECTION_TYPE) == Some(3)
    ensures SourceNumbered(Sources(), SECTION_SWEEP) == Some(2) && SourceNumbered(Sources(), SECTION_TRACE) == Some(1)
    ensures SourceNumbered(Sources(), SECTION_VALUE) == Some(0)
  {
    hide SourceNumbered, HEADER, NODE, AXIS, FLAG, TIME, OTHER, GROUP, D0, D1, WrittenTraces;
    var sources := Sources();
    assert Number(sources[0]) == 4 && Number(sources[1]) == 3 && Number(sources[2]) == 2 && Number(sources[3]) == 1
        && Number(sources[4]) == 0;
  }

  lemma FileContents()
    ensures HeaderOf(Sources()) == HEADER && FileTypes(Sources()) == TYPES
    ensures TypesOf(Sources()) == MODEL.types && SweepsOf(Sources()) == MODEL.sweeps
            && TracesOf(Sources()) == MODEL.traces
    ensures !Windowed(Sources()) && WindowIn(Sources()) == Ok(None)
  {
    hide SourceNumbered, TypeTableOf, TypeChunks, RefChunks, Denoted, HEADER, NODE, AXIS, FLAG, TIME, OTHER, TOP, GROUP,
         D0, D1, LastNumber, PropertyNames, WrittenTraces;
    Numbered();
    NumbersInHeader();
    ThreeDefinitions(NODE, AXIS, FLAG);
    assert NODE.id == 1 && AXIS.id == 2 && FLAG.id == 3 by { TypeIds(); }
    TableOfThree(NODE, AXIS, FLAG);
    TwoReferences(TIME, OTHER);
    TracesDenoted();
  }

  lemma TypeIds()
    ensures NODE.id == 1 && AXIS.id == 2 && FLAG.id == 3
  {
  }

  lemma TracesDenoted()
    ensures Denoted(map[], WrittenTraces()) == TRACED
  {
    hide TIME, TOP, GROUP;
    var a, b, c: Chunk<Datum> := RefChunk(TIME), RefChunk(TOP), GroupChunk(GROUP);
    assert [a, b, c][1..] == [b, c] && [b, c][1..] == [c] && [c][1..] == [];
    assert Denoted(map[], [c]) == [Denotes(map[], c)] + Denoted(map[], [c][1..]);
    assert Denoted(map[], [b, c]) == [Denotes(map[], b)] + Denoted(map[], [b, c][1..]);
    assert Denoted(map[], [a, b, c]) == [Denotes(map[], a)] + Denoted(map[], [a, b, c][1..]);
  }

  lemma KeyLookups()
    ensures IsSweepType(NODE) == Ok(false) && IsSweepType(AXIS) == Ok(true)
  {
    assert KEY == [107, 101, 121] && SWEEP == [115, 119, 101, 101, 112];
    FindIsLast(NODE.props, KEY);
    FindIsLast(AXIS.props, KEY);
    assert NODE.props[0].name == KEY && AXIS.props[0].name == KEY;
  }

  lemma GroupItems()
    ensures MemberItems(TYPES, [INNER, BIT], 0) == Ok([Slot(12, 8), Slot(14, 4)])
  {
    assert [INNER, BIT][1..] == [BIT] && [BIT][1..] == [];
    assert MemberItem(TYPES, INNER, 0) == Ok(Slot(12, 8)) && MemberItem(TYPES, BIT, 0) == Ok(Slot(14, 4));
    assert MemberItems(TYPES, [BIT][1..], 0) == Ok([]);
    assert [Slot(14, 4)] + [] == [Slot(14, 4)] && [Slot(12, 8)] + [Slot(14, 4)] == [Slot(12, 8), Slot(14, 4)];
    assert MemberItems(TYPES, [BIT], 0) == Ok([Slot(14, 4)]);
  }

  lemma ItemsOfEach()
    ensures PointItemsOf(TYPES, RefChunk(TIME)) == Ok([])
    ensures PointItemsOf(TYPES, RefChunk(TOP)) == Ok([Header(16, 11), Slot(11, 8)])
    ensures PointItemsOf(TYPES, GroupChunk(GROUP)) == Ok([Header(17, 20), Slot(12, 8), Slot(14, 4)])
  {
    hide IsSweepType, MemberItems;
    KeyLookups();
    GroupItems();
    assert [Header(17, 20)] + [Slot(12, 8), Slot(14, 4)] == [Header(17, 20), Slot(12, 8), Slot(14, 4)];
  }

  lemma PointLayout()
    ensures Layout(TYPES, TRACED, None) == Ok(ITEMS)
  {
    hide PointItemsOf, TYPES, TIME, TOP, GROUP;
    ItemsOfEach();
    var a, b, c: Chunk<Value> := RefChunk(TIME), RefChunk(TOP), GroupChunk(GROUP);
    assert [a, b, c][1..] == [b, c] && [b, c][1..] == [c] && [c][1..] == [];
    var top, group := [ITEMS[0], ITEMS[1]], [ITEMS[2], ITEMS[3], ITEMS[4]];
    assert group + [] == group && top + group == ITEMS && [] + ITEMS == ITEMS;
    assert Layout(TYPES, [c][1..], None) == Ok([]);
    assert Layout(TYPES, [c], None) == Ok(group);
    assert Layout(TYPES, [b, c], None) == Ok(ITEMS);
  }

  lemma PlacedTraces()
    ensures Placed(TYPES, TRACED, None) == [TOP, INNER, BIT] && Leaves(TRACED) == [TIME, TOP, INNER, BIT]
  {
    hide IsSweepType;
    KeyLookups();
    var a, b, c: Chunk<Value> := RefChunk(TIME), RefChunk(TOP), GroupChunk(GROUP);
    assert [a, b, c][1..] == [b, c] && [b, c][1..] == [c] && [c][1..] == [];
    assert Placed(TYPES, [c], None) == [INNER, BIT] && Leaves([c]) == [INNER, BIT];
    assert Placed(TYPES, [b, c], None) == [TOP, INNER, BIT] && Leaves([b, c]) == [TOP, INNER, BIT];
  }

  lemma PointOffsets()
    ensures AddSlots(map[], ITEMS, 0) == map[11 := 8, 12 := 24, 14 := 32] && Total(ITEMS) == 36
  {
    assert ITEMS[..4] == [ITEMS[0], ITEMS[1], ITEMS[2], ITEMS[3]];
    var four := ITEMS[..4];
    assert four[..3] == [ITEMS[0], ITEMS[1], ITEMS[2]] && four[..3][..2] == [ITEMS[0], ITEMS[1]];
    assert four[..3][..2][..1] == [ITEMS[0]] && four[..3][..2][..1][..0] == [];
    assert Total([ITEMS[0]]) == 8 && AddSlots(map[], [ITEMS[0]], 0) == map[];
    assert Total([ITEMS[0], ITEMS[1]]) == 16 && AddSlots(map[], [ITEMS[0], ITEMS[1]], 0) == map[11 := 8];
    assert Total(four[..3]) == 24 && AddSlots(map[], four[..3], 0) == map[11 := 8];
    assert Total(four) == 32 && AddSlots(map[], four, 0) == map[11 := 8, 12 := 24];
  }

  lemma FileIsWritable()
    ensures Writable(Sources(), Nothing) && LayoutIn(Sources()) == Ok(ITEMS)
  {
    hide EncSources, SourceNumbered, FileTypes, HeaderOf, TracesOf, Windowed, WindowIn, EncodableSource, HEADER, NODE,
         AXIS, FLAG, TIME, OTHER, TOP, GROUP, D0, D1, Layout, TYPES, WrittenTraces, FileBytes, ITEMS;
    Numbered();
    FileContents();
    FileWritten();
    PointLayout();
    AllEncodable();
    var sources := Sources();
    assert forall k :: 0 <= k < 5 ==> Number(sources[k]) == 4 - k;
  }

  lemma AllEncodable()
    ensures forall k :: 0 <= k < 5 ==> EncodableSource(Sources()[k])
  {
    hide D0, D1;
  }

  lemma TableFits()
    ensures Typed(SETUP, TRACED, TABLE, 2)
  {
    hide Placed, TRACED;
    PlacedTraces();
  }

  lemma ItemsDistinct()
    ensures DistinctSlots(ITEMS)
  {
  }

  lemma FileHoldsTable()
    ensures HoldsTable(Sources(), Nothing, SETUP, ITEMS, TABLE, 2, ByPoint)
  {
    hide EncSources, SourceNumbered, FileTypes, HeaderOf, TracesOf, Windowed, WindowIn, HEADER, Writable, LayoutIn,
         Typed, EncTable, D0, D1, LastNumber, AddSlots, Total, DistinctSlots, WrittenTraces;
    Numbered();
    FileContents();
    NumbersInHeader();
    FileIsWritable();
    PointOffsets();
    TableFits();
    ItemsDistinct();
    PayloadBytes();
  }

  lemma NamesFind()
    ensures TraceByName(TRACED, [111]) == Ok(TOP) && TraceByName(TRACED, [105]) == Ok(INNER)
    ensures TraceByName(TRACED, [98]) == Ok(BIT)
  {
    var a, b, c: Chunk<Value> := RefChunk(TIME), RefChunk(TOP), GroupChunk(GROUP);
    assert Names(TRACED) == [[116], [111], [103]];
    assert MemberNames([INNER, BIT]) == [[105], [98]] && MemberNames([INNER, BIT])[..1] == [[105]];
    assert [a, b, c][1..] == [b, c] && [b, c][1..] == [c];
    assert FirstGroup([c]) == Some(0) && FirstGroup([b, c]) == Some(1) && FirstGroup(TRACED) == Some(2);
  }

  lemma ExampleOpens()
    ensures OpenFile(FileBytes()) == Ok(MODEL)
  {
    hide EncSources, OpenFile, Writable, Contents, FileBytes;
    FileWritten();
    FileIsWritable();
    FileIsReadBack(Sources(), Nothing);
    ModelIsRead();
  }

  lemma ModelIsRead()
    ensures Contents(Sources(), Nothing) == MODEL
  {
    hide SourceNumbered, FileTypes, HeaderOf, TypesOf, SweepsOf, TracesOf, Windowed, WindowIn, HEADER, NODE, AXIS, FLAG,
         TIME, OTHER, TOP, GROUP, D0, D1, LayoutIn, AddSlots, Total, PositionOf, WrittenTraces;
    Numbered();
    FileContents();
    FileIsWritable();
    PointOffsets();
    ValuesPlace();
  }

  lemma ValuesPlace()
    ensures PositionOf(Sources(), Nothing, SECTION_VALUE) == 4
  {
    hide SourceNumbered, WrittenSections, Sources;
    Numbered();
    assert WrittenSections(Sources(), Nothing)[..0] == [];
  }

  lemma ExampleSignal(trace: TypeRef)
    requires trace == TOP || trace == INNER || trace == BIT
    ensures ParamValues(MODEL, FileBytes()) == Ok(Some(Meanings(TABLE.params, Double)))
    ensures trace.id in TABLE.cols
    ensures Signal(MODEL, FileBytes(), trace.name) == Ok(Some(Meanings(TABLE.cols[trace.id], BodyOf(TYPES, trace))))
  {
    hide EncSources, HoldsTable, Placed, TraceByName, Signal, ParamValues, OpenFile, Sources, ReadableIn, FileBytes,
         Contents, SourceNumbered, TracesOf;
    FileWritten();
    FileHoldsTable();
    FileContents();
    ModelIsRead();
    PlacedTraces();
    NamesFind();
    EverythingReadable(trace);
    SignalsReadBack(Sources(), Nothing, SETUP, ITEMS, TABLE, 2, ByPoint, trace);
  }

  lemma EverythingReadable(trace: TypeRef)
    requires trace == TOP || trace == INNER || trace == BIT
    ensures ReadableIn(SETUP, [trace], 2, ByPoint)
  {
  }

  lemma ColumnMeanings()
    ensures Meanings(TABLE.params, Double) == [DoubleValue(7), DoubleValue(8)]
    ensures Meanings(TABLE.cols[11], Double) == [DoubleValue(1), DoubleValue(2)]
    ensures Meanings(TABLE.cols[12], Double) == [DoubleValue(3), DoubleValue(4)]
    ensures Meanings(TABLE.cols[14], Int8) == [Int8Value(-1), Int8Value(5)]
  {
  }

  lemma NamesOfFile()
    ensures SignalNames(MODEL) == Ok([[116], [111], [105], [98]])
  {
    hide HEADER, NODE, AXIS, FLAG, OTHER, Leaves;
    PlacedTraces();
    assert MemberNames([TIME, TOP, INNER, BIT]) == [[116], [111], [105], [98]];
  }

  /** What the library returns for the file. The listed names are "t", "o", "i" and "b". */
  ghost predicate Returned(m: FileModel, buf: Bytes) {
    && SignalNames(m) == Ok([[116], [111], [105], [98]])
    && ParamValues(m, buf) == Ok(Some([DoubleValue(7), DoubleValue(8)]))
    && Signal(m, buf, [111]) == Ok(Some([DoubleValue(1), DoubleValue(2)]))
    && Signal(m, buf, [105]) == Ok(Some([DoubleValue(3), DoubleValue(4)]))
    && Signal(m, buf, [98]) == Ok(Some([Int8Value(-1), Int8Value(5)]))
  }

  /** The bytes are opened to the contents, and the names and values of the signals are those written. */
  lemma PointsReadBack()
    ensures OpenFile(FileBytes()) == Ok(MODEL) && Returned(MODEL, FileBytes())
  {
    hide OpenFile, Signal, ParamValues, SignalNames, FileBytes, MODEL;
    ExampleOpens();
    ExampleSignal(TOP);
    ExampleSignal(INNER);
    ExampleSignal(BIT);
    ColumnMeanings();
    NamesOfFile();
  }
}
