/** The file format in numbers: which words select what, and what is refused. The encoders share their constants with
    the parsers, so a round trip alone would not notice if both had them wrong. */
module Format {
  import opened Base
  import opened Words
  import opened Properties
  import opened Types
  import opened Values
  import opened Chunks
  import opened Containers
  import opened Offsets
  import opened Sweeps
  import opened SweepTables
  import opened Sections
  import opened File

  /** Words are big-endian and signed, an 8-bit integer is the last byte of its word, a double is two words. */
  lemma BigEndian(buf: Bytes, p: int)
    requires 0 <= p && p + 4 <= |buf|
    ensures GetWord(buf, p) == Ok(16777216 * (buf[p] as int) + 65536 * (buf[p + 1] as int) + 256 * (buf[p + 2] as int)
                                  + buf[p + 3])
    ensures GetInt(buf, p).value == GetWord(buf, p).value - if buf[p] < 128 then 0 else 4294967296
    ensures GetInt8(buf, p) == Ok((buf[p + 3] as int) - if buf[p + 3] < 128 then 0 else 256)
    ensures p + 8 <= |buf| ==> GetBits(buf, p) == Ok(4294967296 * GetWord(buf, p).value + GetWord(buf, p + 4).value)
  {
  }

  /** A string is a count, as many bytes, and what is missing to a multiple of 4; a negative count is refused. */
  lemma StringBytes(buf: Bytes, p: int)
    requires GetInt(buf, p).Ok?
    ensures var n := GetInt(buf, p).value;
            ParseString(buf, p)
            == if n < 0 then Err(BadLength)
               else if |buf| < p + 4 + n then Err(OutOfBuffer)
               else Ok((buf[p + 4..p + 4 + n], p + 4 + (n + 3) / 4 * 4))
  {
    hide GetInt, Padding;
    if GetInt(buf, p).value >= 0 {
      RoundedUp(GetInt(buf, p).value);
    }
  }

  lemma RoundedUp(n: nat)
    ensures n + Padding(n) == (n + 3) / 4 * 4
  {
  }

  // ---------------------------------------------------------------- type definitions

  /** The body a type word stands for, if it is a scalar. */
  function ScalarNumbered(word: int): Option<TypeBody> {
    if word == 1 then Some(Int8)
    else if word == 5 then Some(Int32)
    else if word == 11 then Some(Double)
    else if word == 12 then Some(ComplexDouble)
    else None
  }

  /** The second word behind the name of a definition selects its body: 1, 5, 11 and 12 are scalars, 16 is a struct
      whose fields follow, and any other is refused. The first word behind the name is skipped. */
  lemma {:induction false} TypeWord(buf: Bytes, p: int)
    requires GetWord(buf, p) == Ok(16) && GetInt(buf, p + 4).Ok? && ParseString(buf, p + 8).Ok?
    requires GetInt(buf, ParseString(buf, p + 8).value.1 + 4).Ok? && p >= 0
    ensures var (name, q) := ParseString(buf, p + 8).value;
            var word, r := GetInt(buf, q + 4).value, ParseTypeDef(buf, p);
            && (r.Ok? ==>
                  && r.value.0.id == GetInt(buf, p + 4).value && r.value.0.name == name
                  && (word == 16 <==> r.value.0.body.Struct?)
                  && (word != 16 ==>
                        && ScalarNumbered(word) == Some(r.value.0.body)
                        && ParseProperties(buf, q + 8) == Ok((r.value.0.props, r.value.1)))
                  && (word == 16 ==>
                        && ParseFields(buf, q + 8).Ok? && r.value.0.body.fields == ParseFields(buf, q + 8).value.0
                        && ParseProperties(buf, ParseFields(buf, q + 8).value.1) == Ok((r.value.0.props, r.value.1))))
            && (word != 16 && ScalarNumbered(word).None? ==> r == Err(UnknownType(word)))
  {
    hide GetInt, GetWord, ParseString, ParseProperties, ParseFields;
    var q := ParseString(buf, p + 8).value.1;
    FirstWordToo(buf, q);
    assert ParseTypeHead(buf, p)
        == Ok(((GetInt(buf, p + 4).value, ParseString(buf, p + 8).value.0, GetInt(buf, q + 4).value), q + 8));
  }

  lemma FirstWordToo(buf: Bytes, q: int)
    requires GetInt(buf, q + 4).Ok? && q >= 0
    ensures GetInt(buf, q).Ok?
  {
  }

  /** Fields start with 16, and 18 ends them. */
  lemma {:induction false} FieldWords(buf: Bytes, p: int)
    requires GetInt(buf, p).Ok?
    ensures GetInt(buf, p).value == 18 ==> ParseFields(buf, p) == Ok(([], p + 4))
    ensures GetInt(buf, p).value !in {16, 18} ==> ParseFields(buf, p) == Err(IncorrectChunk(GetInt(buf, p).value))
    ensures ParseFields(buf, p).Ok? && GetInt(buf, p).value == 16 ==> ParseFields(buf, p).value.0 != []
  {
    hide GetInt, ParseTypeDef;
  }

  // ---------------------------------------------------------------- children of sections

  /** The tags that each kind of section accepts; 1 and 3 end the header and the sweeps. */
  predicate Accepted(kind: Kind, tag: int) {
    match kind
    case HeaderKind => tag in {33, 34, 35, 1}
    case TypeKind => tag == 16
    case SweepKind => tag in {16, 3}
    case TraceKind => tag in {16, 17}
    case ValueKind => tag == 16
  }

  predicate Closes(kind: Kind, tag: int) {
    (tag == 1 && kind == HeaderKind) || (tag == 3 && kind == SweepKind)
  }

  /** What a tag selects in a section, and the identifier and name under which the child is indexed. */
  predicate Selected(kind: Kind, tag: int, buf: Bytes, p: int, c: Chunk<Value>) {
    match c
    case PropertyChunk(prop) =>
      && kind == HeaderKind && c.Id() == -1 && ParseString(buf, p + 4).Ok?
         && c.Name() == ParseString(buf, p + 4).value.0
      && (tag == 33 <==> prop.value.Text?) && (tag == 34 <==> prop.value.Integer?) && (tag == 35 <==> prop.value.Real?)
    case TypeChunk(_) => kind == TypeKind && Indexed(c, true, buf, p)
    case RefChunk(_) => (kind == SweepKind || kind == TraceKind) && tag == 16 && Indexed(c, true, buf, p)
    case GroupChunk(_) => kind == TraceKind && tag == 17 && Indexed(c, false, buf, p)
    case ValueChunk(_, _, _, _, _) => kind == ValueKind && Indexed(c, false, buf, p)
  }

  /** Definitions and references are indexed under the identifier in front of their name; groups and values are not. */
  predicate Indexed(c: Chunk<Value>, byId: bool, buf: Bytes, p: int) {
    && ParseString(buf, p + 8).Ok? && c.Name() == ParseString(buf, p + 8).value.0
    && (if byId then GetInt(buf, p + 4) == Ok(c.Id()) else c.Id() == -1)
  }

  lemma ChildTags(kind: Kind, types: TypeTable, buf: Bytes, p: int)
    requires GetInt(buf, p).Ok?
    ensures var tag, r := GetInt(buf, p).value, ParseChild(kind, types, buf, p);
            && (!Accepted(kind, tag) ==> r == Err(IncorrectChunk(tag)))
            && (r.Ok? && r.value.0.Some? ==> Selected(kind, tag, buf, p, r.value.0.value))
            && (Closes(kind, tag) ==> r == Ok((None, p + 4)))
            && (r.Ok? && r.value.0.None? ==> Closes(kind, tag))
  {
    hide GetInt, GetBits, ParseString, ParseProperties, ParseMembers, ParseFields, DecodeData, LookupType;
    WordIsTag(buf, p);
  }

  lemma WordIsTag(buf: Bytes, p: int)
    ensures GetWord(buf, p).Ok? <==> GetInt(buf, p).Ok?
    ensures GetInt(buf, p).Ok? && GetInt(buf, p).value >= 0 ==> GetWord(buf, p) == GetInt(buf, p)
  {
  }

  // ---------------------------------------------------------------- sections

  /** Sections start with 21, but for the section of unswept values, which may start with anything. */
  lemma SectionTags(kind: Kind, buf: Bytes, p: int)
    requires GetWord(buf, p).Ok?
    ensures var tag := GetWord(buf, p).value;
            && (tag != 21 ==> ParseSimple(kind, buf, p) == Err(IncorrectChunk(tag)))
            && (tag != 21 && kind != ValueKind ==> ParseIndexedHead(kind, buf, p) == Err(IncorrectChunk(tag)))
            && ParseIndexedHead(ValueKind, buf, p) == ParseIndexedHeadAt(buf, p)
            && (tag == 21 ==> ParseIndexedHead(kind, buf, p) == ParseIndexedHeadAt(buf, p))
  {
    hide GetWord, ParseChildren;
  }

  /** Behind the tag: where the section ends, 22, and where its children end. */
  function ParseIndexedHeadAt(buf: Bytes, p: int): Result<(int, int)> {
    if GetWord(buf, p + 4).Err? || GetWord(buf, p + 8).Err? then Err(OutOfBuffer)
    else if GetWord(buf, p + 8).value != 22 then Err(AssertionFailed)
    else if GetWord(buf, p + 12).Err? then Err(OutOfBuffer)
    else Ok((GetWord(buf, p + 4).value, GetWord(buf, p + 12).value))
  }

  /** An index starts with 19 and zero padding with 20; both are skipped by the size that follows. */
  lemma SkippedTags(buf: Bytes, p: int)
    requires GetWord(buf, p).Ok? && GetWord(buf, p + 4).Ok?
    ensures var tag, size := GetWord(buf, p).value, GetWord(buf, p + 4).value;
            && ParseIndex(buf, p) == (if tag == 19 then Ok(p + 8 + size) else Err(IncorrectChunk(tag)))
            && ParseZeroPad(buf, p) == (if tag == 20 then Ok(p + 8 + size) else Err(IncorrectChunk(tag)))
  {
    hide GetWord;
  }

  /** The children of an indexed section end where its head says so, an index follows them, and the section ends
      where its head says so, whatever the size of the index. */
  lemma {:induction false} IndexedParts(kind: Kind, types: TypeTable, buf: Bytes, p: int)
    requires ParseIndexed(kind, types, buf, p).Ok?
    ensures var (children, end) := ParseIndexed(kind, types, buf, p).value;
            && GetWord(buf, p + 4) == Ok(end) && GetWord(buf, p + 8) == Ok(22) && GetWord(buf, p + 12).Ok?
            && ParseChildren(kind, types, buf, p + 16, GetWord(buf, p + 12).value).Ok?
            && var (cs, q) := ParseChildren(kind, types, buf, p + 16, GetWord(buf, p + 12).value).value;
               cs == children && GetWord(buf, q) == Ok(19) && GetWord(buf, q + 4).Ok?
  {
    hide GetWord, ParseChildren;
  }

  /** A type section holds the last definition of each identifier. */
  lemma LastTypeKept(types: Children, i: nat)
    requires i < |types| && types[i].TypeChunk?
    requires forall j :: i < j < |types| ==> types[j].Id() != types[i].Id()
    ensures types[i].def.id in TypeTableOf(Some(types)) && TypeTableOf(Some(types))[types[i].def.id] == types[i].def
  {
    hide IdMap;
    IdIndexAgrees(types, types[i].def.id);
  }

  // ---------------------------------------------------------------- swept values

  /** A point starts with 16 and the identifier of the parameter, whatever traces are selected. */
  lemma PointHead(s: Setup, filter: seq<TypeRef>, buf: Bytes, start: nat, i: nat, st: State)
    requires |filter| == |st.cols| && GetWord(buf, st.pos).Ok? && GetInt(buf, st.pos + 4).Ok?
    ensures GetWord(buf, st.pos).value != 16 ==>
              DecodePoint(s, filter, buf, start, i, st) == Err(IncorrectChunk(GetWord(buf, st.pos).value))
    ensures GetWord(buf, st.pos).value == 16 && GetInt(buf, st.pos + 4).value != s.paramId ==>
              DecodePoint(s, filter, buf, start, i, st) == Err(AssertionFailed)
  {
    hide GetWord, GetInt, DecodeInto, FillColumns;
  }

  lemma CountBytes(buf: Bytes, p: nat)
    requires p + 4 <= |buf|
    ensures GetInt(buf, p).Ok? && PointCount(GetInt(buf, p).value) == 256 * (buf[p + 2] as int) + buf[p + 3]
  {
    var high, low := 256 * (buf[p] as int) + buf[p + 1], 256 * (buf[p + 2] as int) + buf[p + 3];
    assert GetWord(buf, p).value == high * 65536 + low;
    LowHalf(high, low);
    LowHalf(high - 65536, low);
  }

  /** A window starts with 16, and the last two bytes of its second word count its points. */
  lemma WindowHead(s: Setup, filter: seq<TypeRef>, buf: Bytes, i: nat, st: State)
    requires |filter| == |st.cols| && 0 <= st.pos && st.pos + 8 <= |buf|
    ensures GetWord(buf, st.pos).value != 16 ==>
              DecodeWindow(s, filter, buf, i, st) == Err(IncorrectChunk(GetWord(buf, st.pos).value))
    ensures DecodeWindow(s, filter, buf, i, st).Ok? ==>
              DecodeWindow(s, filter, buf, i, st).value.1 == 256 * (buf[st.pos + 6] as int) + buf[st.pos + 7]
  {
    hide DecodeInto, FillColumns, Resize, GetInt, PointCount;
    CountBytes(buf, st.pos + 4);
  }

  /** Without a property called "key" the type of a top-level trace stops the layout of a point, and in windows a
      top-level trace does. A trace of unknown type has no layout either. */
  lemma {:induction false} TopLevelRefused(types: TypeTable, traces: Children, ref: TypeRef, size: int)
    requires traces != [] && traces[0] == RefChunk(ref)
    ensures ref.typeId !in types ==> Layout(types, traces, None) == Err(Undefined)
    ensures ref.typeId in types && KEY !in PropertyNames(types[ref.typeId].props) ==>
              Layout(types, traces, None) == Err(PropertyNotFound)
    ensures Layout(types, traces, Some(size)) == Err(IncorrectChunk(16))
  {
    if ref.typeId in types {
      FindIsLast(types[ref.typeId].props, KEY);
      forall i | 0 <= i < |types[ref.typeId].props| && types[ref.typeId].props[i].name == KEY
        ensures KEY in PropertyNames(types[ref.typeId].props)
      {
        assert PropertyNames(types[ref.typeId].props)[i] == KEY;
      }
    }
  }

  /** Only a type whose last "key" is the text "sweep" takes no room in a point. */
  lemma SweepKey(types: TypeTable, ref: TypeRef, i: nat)
    requires ref.typeId in types && i < |types[ref.typeId].props| && types[ref.typeId].props[i].name == KEY
    requires forall j :: i < j < |types[ref.typeId].props| ==> types[ref.typeId].props[j].name != KEY
    ensures PointItemsOf(types, RefChunk(ref))
         == Ok(if types[ref.typeId].props[i].value == Text(SWEEP) then []
               else [Header(16, ref.id), Slot(ref.id, DataSize(types[ref.typeId].body))])
  {
    FindIsLast(types[ref.typeId].props, KEY);
  }

  /** A trace without a slot, such as a sweep listed among the traces, is not decoded. */
  lemma UnplacedRefused(s: Setup, ref: TypeRef, buf: Bytes, base: int, i: nat, n: nat, col: Cells)
    requires ref.typeId !in s.types || ref.id !in s.offsets
    ensures FillColumn(s, ref, buf, base, i, n, col) == Err(Undefined)
  {
  }

  /** What a decode needs from the header: the number of points, and in windows the number of traces. */
  lemma NumbersNeeded(m: FileModel, values: SweptValues, buf: Bytes, filter: seq<TypeRef>)
    ensures SWEEP_POINTS !in PropertyNames(m.header) ==> DecodeSelected(m, values, buf, filter) == Err(PropertyNotFound)
    ensures SWEEP_POINTS in PropertyNames(m.header) && LastNumber(m.header, SWEEP_POINTS).Some? && values.windowed
            && (WINDOW_SIZE !in PropertyNames(m.header)
                || (LastNumber(m.header, WINDOW_SIZE).Some? && TRACES !in PropertyNames(m.header))) ==>
              DecodeSelected(m, values, buf, filter) == Err(PropertyNotFound)
  {
    hide FindInt, LastNumber, DecodeSimple, NewColumns, DecodeWindows;
    FindIntExactly(m.header, SWEEP_POINTS);
    FindIntExactly(m.header, WINDOW_SIZE);
    FindIntExactly(m.header, TRACES);
  }

  // ---------------------------------------------------------------- files

  /** The mark of a file: "Clarissa" in front of the last word. */
  predicate Marked(buf: Bytes) {
    |buf| >= 12 && buf[|buf| - 12..|buf| - 4] == [67, 108, 97, 114, 105, 115, 115, 97]
  }

  /** A file is read exactly if it has the mark. */
  lemma OpenedIfMarked(buf: Bytes)
    ensures OpenFile(buf) == if Marked(buf) then ParseFile(buf) else Err(InvalidFile)
  {
    hide ParseFile;
    assert CLARISSA == [67, 108, 97, 114, 105, 115, 115, 97];
  }

  /** The numbers of the sections, and where each is looked for; the header of a file whose table has none is looked
      for at the first word. */
  lemma SectionNumbers(buf: Bytes, sections: map<int, Section>)
    requires ParseSections(buf, sections).Ok?
    ensures var m := ParseSections(buf, sections).value;
            && ParseHeader(buf, if 0 in sections then sections[0].offset else 0).Ok?
            && m.header == ParseHeader(buf, if 0 in sections then sections[0].offset else 0).value.0
            && (1 !in sections <==> m.types.None?) && (2 !in sections <==> m.sweeps.None?)
            && (3 !in sections <==> m.traces.None?)
            && (1 in sections ==> ParsedFrom(m.types, ParseIndexed(TypeKind, map[], buf, sections[1].offset)))
            && (2 in sections ==> ParsedFrom(m.sweeps, ParseSimple(SweepKind, buf, sections[2].offset)))
            && (3 in sections ==> ParsedFrom(m.traces, ParseIndexed(TraceKind, map[], buf, sections[3].offset)))
            && (m.swept.Some? <==> 4 in sections && 2 in sections)
            && (m.unswept.Some? <==> 4 in sections && 2 !in sections)
            && (m.unswept.Some? ==>
                  ParsedFrom(m.unswept, ParseIndexed(ValueKind, TypeTableOf(m.types), buf, sections[4].offset)))
  {
    hide ParseHeader, ParseIndexed, ParseSimple, ParseSweptValues, TypeTableOf;
  }

  predicate ParsedFrom(children: Option<Children>, r: Parsed<Children>) {
    r.Ok? && children == Some(r.value.0)
  }

  /** A file whose table has no header is refused, unless its first word happens to be a section tag. */
  lemma NoHeader(buf: Bytes)
    requires Marked(buf) && ReadSectionTable(buf).Ok? && 0 !in ReadSectionTable(buf).value
    requires GetWord(buf, 0).value != 21
    ensures OpenFile(buf) == Err(IncorrectChunk(GetWord(buf, 0).value))
  {
    hide GetWord, ReadSectionTable, IsPsf;
    OpenedIfMarked(buf);
    assert GetWord(buf, 0).Ok?;
    SectionTags(HeaderKind, buf, 0);
    assert ParseSimple(HeaderKind, buf, 0).Err?;
  }

  /** The table stands right in front of the mark, whatever the last word says, as the number of its entries is
      rounded down. Of the entries with the same number the last one counts. */
  lemma TableEntries(buf: Bytes, count: nat, k: nat)
    requires ReadSectionTable(buf).Ok? && count == EntryCount(|buf|, GetWord(buf, |buf| - 4).value) && k < count
    requires forall j :: k < j < count ==> GetInt(buf, EntryAddress(buf, count, j))
                                           != GetInt(buf, EntryAddress(buf, count, k))
    ensures var p, table := EntryAddress(buf, count, k), ReadSectionTable(buf).value;
            GetInt(buf, p).Ok? && GetInt(buf, p).value in table
            && GetWord(buf, p + 4) == Ok(table[GetInt(buf, p).value].offset)
  {
    hide GetWord, GetInt, EntryCount, TableAfter, Distance;
    var p := |buf| - 12 - 8 * count;
    var entries := ReadEntries(buf, p, count).value;
    forall j | k <= j < count
      ensures |entries| == count && EntryAddress(buf, count, j) == p + 8 * j
      ensures GetInt(buf, p + 8 * j).Ok? && GetWord(buf, p + 8 * j + 4).Ok?
      ensures entries[j] == Entry(GetInt(buf, p + 8 * j).value, GetWord(buf, p + 8 * j + 4).value)
    {
      EntryRead(buf, p, count, j);
    }
    LastEntryKept(entries, k);
  }

  /** Where entry `j` of a table of `count` entries stands. */
  function EntryAddress(buf: Bytes, count: nat, j: nat): int {
    |buf| - 12 - 8 * (count - j)
  }

  /** The number of table entries is computed in unsigned words, so a table behind the trailer has a huge one. */
  lemma CountWraps(size: int, tocOffset: int)
    requires 12 <= size < 4294967296 && 0 <= tocOffset < 4294967296
    ensures EntryCount(size, tocOffset)
         == if tocOffset <= size - 12 then (size - tocOffset - 12) / 8 else (size - tocOffset - 12 + 4294967296) / 8
  {
  }

  /** Sizes are differences of offsets in signed words. */
  lemma DistanceWraps(from: int, to: int)
    requires 0 <= from < 4294967296 && 0 <= to < 4294967296
    ensures -2147483648 <= to - from < 2147483648 ==> Distance(from, to) == to - from
    ensures to - from >= 2147483648 ==> Distance(from, to) == to - from - 4294967296
    ensures to - from < -2147483648 ==> Distance(from, to) == to - from + 4294967296
  {
  }
}
