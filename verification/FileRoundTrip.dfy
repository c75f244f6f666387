/** Files written section by section are read back, down to the columns of single signals. */
module FileRoundTrip {
  import opened Base
  import opened Words
  import opened Keys
  import opened Properties
  import opened Types
  import opened Values
  import opened Chunks
  import opened Containers
  import opened Offsets
  import opened Sweeps
  import opened Sections
  import opened File

  /** A section yet to be written. The values of a swept section are given as bytes, behind zero padding
      if they are windowed. */
  datatype Source =
    | HeaderSource(props: seq<Property>, marked: bool)
    | TypeSource(defs: seq<TypeDef>, typeIndex: Bytes)
    | SweepSource(refs: seq<TypeRef>, marked: bool)
    | TraceSource(traces: seq<Chunk<Datum>>, traceIndex: Bytes)
    | UnsweptSource(values: seq<Chunk<Datum>>, valueIndex: Bytes)
    | SweptSource(pad: Option<Bytes>, payload: Bytes)

  function Number(s: Source): int {
    match s
    case HeaderSource(_, _) => SECTION_HEADER
    case TypeSource(_, _) => SECTION_TYPE
    case SweepSource(_, _) => SECTION_SWEEP
    case TraceSource(_, _) => SECTION_TRACE
    case UnsweptSource(_, _) => SECTION_VALUE
    case SweptSource(_, _) => SECTION_VALUE
  }

  function PropertyChunks<V>(props: seq<Property>): seq<Chunk<V>> {
    if props == [] then [] else [PropertyChunk(props[0])] + PropertyChunks(props[1..])
  }

  function TypeChunks<V>(defs: seq<TypeDef>): seq<Chunk<V>> {
    if defs == [] then [] else [TypeChunk(defs[0])] + TypeChunks(defs[1..])
  }

  function RefChunks<V>(refs: seq<TypeRef>): seq<Chunk<V>> {
    if refs == [] then [] else [RefChunk(refs[0])] + RefChunks(refs[1..])
  }

  function EncSwept(abspos: nat, pad: Option<Bytes>, payload: Bytes): Bytes {
    var front := if pad.Some? then EncWord(TAG_ZERO_PAD) + (EncWord(|pad.value|) + pad.value) else [];
    EncWord(TAG_SECTION) + (EncWord(abspos + 8 + |front| + |payload|) + (front + payload))
  }

  function EncSection(s: Source, abspos: nat, skipped: Skipped): Bytes {
    match s
    case HeaderSource(props, marked) => EncSimple(HeaderKind, abspos, PropertyChunks(props), marked, skipped)
    case TypeSource(defs, index) => EncIndexed(abspos, TypeChunks(defs), skipped, index)
    case SweepSource(refs, marked) => EncSimple(SweepKind, abspos, RefChunks(refs), marked, skipped)
    case TraceSource(traces, index) => EncIndexed(abspos, traces, skipped, index)
    case UnsweptSource(values, index) => EncIndexed(abspos, values, skipped, index)
    case SweptSource(pad, payload) => EncSwept(abspos, pad, payload)
  }

  /** The sections one behind the other, each written for the position it gets and with skipped parts of its own. */
  function Assemble(sources: seq<Source>, base: nat, skipped: Skipped): (r: seq<SectionBytes>)
    ensures |r| == |sources|
  {
    if sources == [] then []
    else
      var bytes := EncSection(sources[0], base, FirstOf(skipped));
      [SectionBytes(Number(sources[0]), bytes)] + Assemble(sources[1..], base + |bytes|, RestOf(skipped))
  }

  /** The skipped parts of the k-th section. */
  function Nth(skipped: Skipped, k: nat): Skipped
    decreases k
  {
    if k == 0 then FirstOf(skipped) else Nth(RestOf(skipped), k - 1)
  }

  function WrittenSections(sources: seq<Source>, skipped: Skipped): (r: seq<SectionBytes>)
    ensures |r| == |sources|
  {
    Assemble(sources, 4, RestOf(skipped))
  }

  function EncSources(sources: seq<Source>, skipped: Skipped): Bytes {
    EncFile(WordOf(FirstOf(skipped)), WrittenSections(sources, skipped))
  }

  lemma {:induction false} AssembledAt(sources: seq<Source>, base: nat, skipped: Skipped, k: nat)
    requires k < |sources|
    ensures var sections := Assemble(sources, base, skipped);
            sections[k] == SectionBytes(Number(sources[k]),
                                        EncSection(sources[k], base + |Body(sections[..k])|, Nth(skipped, k)))
    decreases |sources|
  {
    hide EncSection, Body, Assemble;
    var sections := Assemble(sources, base, skipped);
    FirstAssembled(sources, base, skipped);
    if k > 0 {
      AssembledAt(sources[1..], base + |sections[0].bytes|, RestOf(skipped), k - 1);
      BodySplit(sections, k);
    } else {
      assert |Body(sections[..0])| == 0 by { FirstSection(sections, 0, 0); }
    }
  }

  lemma FirstAssembled(sources: seq<Source>, base: nat, skipped: Skipped)
    requires sources != []
    ensures var sections := Assemble(sources, base, skipped);
            && sections[0] == SectionBytes(Number(sources[0]), EncSection(sources[0], base, FirstOf(skipped)))
            && sections[1..] == Assemble(sources[1..], base + |sections[0].bytes|, RestOf(skipped))
  {
    hide EncSection;
  }

  // ---------------------------------------------------------------- what a reader should obtain

  /** The section with a number, if it is among the sources. */
  function SourceNumbered(sources: seq<Source>, number: int): (r: Option<nat>)
    ensures r.Some? ==> r.value < |sources| && Number(sources[r.value]) == number
    ensures r.None? ==> forall k :: 0 <= k < |sources| ==> Number(sources[k]) != number
  {
    if sources == [] then None
    else if Number(sources[0]) == number then Some(0)
    else
      match SourceNumbered(sources[1..], number)
      case None => None
      case Some(k) => Some(k + 1)
  }

  /** Where the section with a number is written. */
  function PositionOf(sources: seq<Source>, skipped: Skipped, number: int): int
    requires SourceNumbered(sources, number).Some?
  {
    OffsetIn(WrittenSections(sources, skipped), SourceNumbered(sources, number).value)
  }

  function HeaderOf(sources: seq<Source>): seq<Property> {
    match SourceNumbered(sources, SECTION_HEADER)
    case Some(k) => sources[k].props
    case None => []
  }

  function TypesOf(sources: seq<Source>): Option<Children> {
    match SourceNumbered(sources, SECTION_TYPE)
    case Some(k) => Some(TypeChunks(sources[k].defs))
    case None => None
  }

  function SweepsOf(sources: seq<Source>): Option<Children> {
    match SourceNumbered(sources, SECTION_SWEEP)
    case Some(k) => Some(RefChunks(sources[k].refs))
    case None => None
  }

  function TracesOf(sources: seq<Source>): Option<Children> {
    match SourceNumbered(sources, SECTION_TRACE)
    case Some(k) => Some(Denoted(map[], sources[k].traces))
    case None => None
  }

  function FileTypes(sources: seq<Source>): TypeTable {
    TypeTableOf(TypesOf(sources))
  }

  function FrontSize(s: Source): int {
    if s.SweptSource? && s.pad.Some? then 8 + |s.pad.value| else 0
  }

  /** Values are windowed exactly when the header has a property called "PSF window size". */
  predicate Windowed(sources: seq<Source>) {
    WINDOW_SIZE in PropertyNames(HeaderOf(sources))
  }

  function WindowIn(sources: seq<Source>): Result<Option<int>> {
    if !Windowed(sources) then Ok(None)
    else
      match LastNumber(HeaderOf(sources), WINDOW_SIZE)
      case Some(n) => Ok(Some(n))
      case None => Err(NotModelled)
  }

  /** What a reader decides from the header. */
  lemma WindowFound(sources: seq<Source>)
    ensures IsWindowed(HeaderOf(sources)) <==> Windowed(sources)
    ensures WindowOf(HeaderOf(sources)) == WindowIn(sources)
  {
    var header := HeaderOf(sources);
    LastMapLookup(PropertyNames(header), PropertyValues(header), WINDOW_SIZE);
    hide FindInt, HeaderOf, PropertyNames, PropertyValues, LastMap, LastNumber;
    FindIntExactly(header, WINDOW_SIZE);
  }

  /** The layout of the file's traces. */
  function LayoutIn(sources: seq<Source>): Result<seq<Item>> {
    var window :- WindowIn(sources);
    if TracesOf(sources).None? then Err(Undefined) else Layout(FileTypes(sources), TracesOf(sources).value, window)
  }

  function SweptIn(sources: seq<Source>, skipped: Skipped): Option<SweptValues> {
    match SourceNumbered(sources, SECTION_VALUE)
    case None => None
    case Some(k) =>
      if !sources[k].SweptSource? || LayoutIn(sources).Err? then None
      else
        var items := LayoutIn(sources).value;
        Some(SweptValues(Windowed(sources), AddSlots(map[], items, 0), Total(items),
                         PositionOf(sources, skipped, SECTION_VALUE) + 8 + FrontSize(sources[k])))
  }

  function UnsweptIn(sources: seq<Source>): Option<Children> {
    match SourceNumbered(sources, SECTION_VALUE)
    case None => None
    case Some(k) => if sources[k].UnsweptSource? then Some(Denoted(FileTypes(sources), sources[k].values)) else None
  }

  /** The contents of the written sections. */
  function Contents(sources: seq<Source>, skipped: Skipped): FileModel {
    FileModel(HeaderOf(sources), TypesOf(sources), SweepsOf(sources), TracesOf(sources),
              SweptIn(sources, skipped), UnsweptIn(sources))
  }

  // ---------------------------------------------------------------- what can be written

  /** Everything but unswept values, whose types are those of the file. */
  ghost predicate EncodableSource(s: Source) {
    match s
    case HeaderSource(props, _) => EncodableProperties(props)
    case TypeSource(defs, _) => forall k :: 0 <= k < |defs| ==> EncodableType(defs[k])
    case SweepSource(refs, _) => forall k :: 0 <= k < |refs| ==> EncodableRef(refs[k])
    case TraceSource(traces, _) => EncodableChildren(TraceKind, map[], traces)
    case UnsweptSource(_, _) => true
    case SweptSource(_, _) => true
  }

  /** Distinct sections in any order, among them a header; values are swept exactly when there is a sweep section,
      padded exactly when the header has a window size, and their traces can be laid out. */
  ghost predicate Shaped(sources: seq<Source>, skipped: Skipped) {
    && |EncSources(sources, skipped)| < HALF_WORD
    && (forall j, k :: 0 <= j < |sources| && 0 <= k < |sources| && Number(sources[j]) == Number(sources[k]) ==> j == k)
    && SourceNumbered(sources, SECTION_HEADER).Some?
    && (forall k :: 0 <= k < |sources| ==> EncodableSource(sources[k]))
    && match SourceNumbered(sources, SECTION_VALUE)
       case None => true
       case Some(k) =>
         && (sources[k].SweptSource? <==> SourceNumbered(sources, SECTION_SWEEP).Some?)
         && (sources[k].SweptSource? ==>
               (sources[k].pad.Some? <==> Windowed(sources)) && LayoutIn(sources).Ok?)
  }

  /** Such sections, with unswept values of known types that hold no complex number inside a struct. */
  ghost predicate Writable(sources: seq<Source>, skipped: Skipped) {
    && Shaped(sources, skipped)
    && forall k :: 0 <= k < |sources| && sources[k].UnsweptSource? ==>
         EncodableChildren(ValueKind, FileTypes(sources), sources[k].values)
  }

  // ---------------------------------------------------------------- reading each section

  lemma {:induction false} PropertyChunksDenoted(types: TypeTable, props: seq<Property>)
    ensures Denoted(types, PropertyChunks<Datum>(props)) == PropertyChunks<Value>(props)
    ensures |PropertyChunks<Value>(props)| == |props| == |PropertyChunks<Datum>(props)|
    ensures forall k :: 0 <= k < |props| ==>
              PropertyChunks<Value>(props)[k] == PropertyChunk(props[k])
                  && PropertyChunks<Datum>(props)[k] == PropertyChunk(props[k])
    decreases |props|
  {
    if props != [] {
      PropertyChunksDenoted(types, props[1..]);
    }
  }

  lemma {:induction false} TypeChunksDenoted(types: TypeTable, defs: seq<TypeDef>)
    ensures Denoted(types, TypeChunks<Datum>(defs)) == TypeChunks<Value>(defs)
    ensures |TypeChunks<Datum>(defs)| == |defs| && forall k :: 0 <= k < |defs| ==>
            TypeChunks<Datum>(defs)[k] == TypeChunk(defs[k])
    decreases |defs|
  {
    if defs != [] {
      TypeChunksDenoted(types, defs[1..]);
    }
  }

  lemma {:induction false} RefChunksDenoted(types: TypeTable, refs: seq<TypeRef>)
    ensures Denoted(types, RefChunks<Datum>(refs)) == RefChunks<Value>(refs)
    ensures |RefChunks<Datum>(refs)| == |refs| && forall k :: 0 <= k < |refs| ==>
            RefChunks<Datum>(refs)[k] == RefChunk(refs[k])
    decreases |refs|
  {
    if refs != [] {
      RefChunksDenoted(types, refs[1..]);
    }
  }

  lemma HeaderRead(buf: Bytes, p: nat, props: seq<Property>, marked: bool, skipped: Skipped)
    requires EncodableProperties(props) && At(buf, p, EncSection(HeaderSource(props, marked), p, skipped))
             && |buf| < WORD
    ensures ParseHeader(buf, p).Ok? && ParseHeader(buf, p).value.0 == props
  {
    hide At, ParseSimple, EncSimple, EncodableProperty;
    PropertyChunksDenoted(map[], props);
    var chunks := PropertyChunks<Datum>(props);
    forall k | 0 <= k < |chunks| ensures EncodableChunk(HeaderKind, map[], chunks[k]) {
      assert EncodableProperty(props[k]);
    }
    SimpleRoundTrip(HeaderKind, buf, p, chunks, marked, skipped);
    HeaderChildrenAreProperties(buf, p);
    assert ChildProperties(PropertyChunks<Value>(props)) == props;
  }

  lemma {:induction false} TypesRead(buf: Bytes, p: nat, defs: seq<TypeDef>, index: Bytes, skipped: Skipped)
    requires forall k :: 0 <= k < |defs| ==> EncodableType(defs[k])
    requires At(buf, p, EncSection(TypeSource(defs, index), p, skipped)) && |buf| < WORD
    ensures ParseIndexed(TypeKind, map[], buf, p).Ok?
            && ParseIndexed(TypeKind, map[], buf, p).value.0 == TypeChunks<Value>(defs)
  {
    hide At, ParseIndexed, EncIndexed, EncodableType;
    TypeChunksDenoted(map[], defs);
    IndexedRoundTrip(TypeKind, map[], buf, p, TypeChunks(defs), skipped, index);
  }

  lemma {:induction false} SweepsRead(buf: Bytes, p: nat, refs: seq<TypeRef>, marked: bool, skipped: Skipped)
    requires forall k :: 0 <= k < |refs| ==> EncodableRef(refs[k])
    requires At(buf, p, EncSection(SweepSource(refs, marked), p, skipped)) && |buf| < WORD
    requires EndsProperties(buf, p + |EncSection(SweepSource(refs, marked), p, skipped)|)
    ensures ParseSimple(SweepKind, buf, p).Ok? && ParseSimple(SweepKind, buf, p).value.0 == RefChunks<Value>(refs)
  {
    hide At, ParseSimple, EncSimple, EncodableRef;
    RefChunksDenoted(map[], refs);
    SimpleRoundTrip(SweepKind, buf, p, RefChunks(refs), marked, skipped);
  }

  lemma {:induction false} SweptRead(buf: Bytes, p: nat, pad: Option<Bytes>, payload: Bytes, header: seq<Property>,
                                     types: TypeTable, traces: Children, window: Option<int>, items: seq<Item>)
    requires At(buf, p, EncSwept(p, pad, payload)) && |buf| < WORD
    requires pad.Some? <==> IsWindowed(header)
    requires WindowOf(header) == Ok(window) && Layout(types, traces, window) == Ok(items)
    ensures var start := p + 8 + FrontSize(SweptSource(pad, payload));
            && At(buf, start, payload)
            && ParseSweptValues(buf, p, header, types, Some(traces))
               == Ok((SweptValues(IsWindowed(header), AddSlots(map[], items, 0), Total(items), start),
                      p + |EncSwept(p, pad, payload)|))
  {
    hide At, GetWord, ParseTag, EncWord, WindowOf, IsWindowed, Layout, AddSlots, Total;
    var front := if pad.Some? then EncWord(TAG_ZERO_PAD) + (EncWord(|pad.value|) + pad.value) else [];
    var endpos := p + 8 + |front| + |payload|;
    AtInside(buf, p, EncSwept(p, pad, payload));
    AtSplit(buf, p, EncWord(TAG_SECTION), EncWord(endpos) + (front + payload));
    AtSplit(buf, p + 4, EncWord(endpos), front + payload);
    AtSplit(buf, p + 8, front, payload);
    TagAt(buf, p, TAG_SECTION);
    WordAt(buf, p + 4, endpos);
    if pad.Some? {
      AtSplit(buf, p + 8, EncWord(TAG_ZERO_PAD), EncWord(|pad.value|) + pad.value);
      AtSplit(buf, p + 12, EncWord(|pad.value|), pad.value);
      TagAt(buf, p + 8, TAG_ZERO_PAD);
      WordAt(buf, p + 12, |pad.value|);
    }
  }

  // ---------------------------------------------------------------- the whole file

  /** The skipped parts of the k-th section of a file; the first word of the file is skipped, too. */
  function PartsOf(skipped: Skipped, k: nat): Skipped {
    Nth(RestOf(skipped), k)
  }

  /** A section is found at its position in the file. */
  lemma {:induction false} SourceAt(sources: seq<Source>, skipped: Skipped, number: int)
    requires Shaped(sources, skipped)
    ensures IsPsf(EncSources(sources, skipped)) && ReadSectionTable(EncSources(sources, skipped)).Ok?
    ensures var m := ReadSectionTable(EncSources(sources, skipped)).value;
            match SourceNumbered(sources, number)
            case None => number !in m
            case Some(k) =>
              && number in m && m[number].offset == PositionOf(sources, skipped, number) >= 0
              && At(EncSources(sources, skipped), m[number].offset,
                    EncSection(sources[k], m[number].offset, PartsOf(skipped, k)))
  {
    hide At, EncSection, ReadSectionTable, IsPsf, EncFile, Body, LayoutIn, EncodableSource, EntriesOf;
    var sections := WrittenSections(sources, skipped);
    NumbersAgree(sources, 4, RestOf(skipped));
    DistinctNumbers(sources, skipped);
    SectionTableRoundTrip(WordOf(FirstOf(skipped)), sections);
    match SourceNumbered(sources, number)
    case None =>
    case Some(k) => AssembledAt(sources, 4, RestOf(skipped), k);
  }

  /** What follows a section, another one or the section table, does not start with a property tag. */
  lemma {:induction false} AfterSource(sources: seq<Source>, skipped: Skipped, number: int)
    requires Shaped(sources, skipped) && SourceNumbered(sources, number).Some?
    ensures var k, p := SourceNumbered(sources, number).value, PositionOf(sources, skipped, number);
            p >= 0 && EndsProperties(EncSources(sources, skipped), p + |EncSection(sources[k], p, PartsOf(skipped, k))|)
  {
    hide At, EncSection, EncFile, Body, Assemble, EndsProperties, Shaped;
    var sections, k := WrittenSections(sources, skipped), SourceNumbered(sources, number).value;
    var signature := WordOf(FirstOf(skipped));
    NumbersAgree(sources, 4, RestOf(skipped));
    AssembledAt(sources, 4, RestOf(skipped), k);
    if k + 1 < |sections| {
      AssembledAt(sources, 4, RestOf(skipped), k + 1);
      AfterSection(signature, sections, k, sources[k + 1], PartsOf(skipped, k + 1));
    } else {
      AfterLast(signature, sections);
    }
  }

  lemma AfterSection(signature: int, sections: seq<SectionBytes>, k: nat, next: Source, skipped: Skipped)
    requires k + 1 < |sections|
    requires sections[k + 1].bytes == EncSection(next, 4 + |Body(sections[..k + 1])|, skipped)
    ensures EndsProperties(EncFile(signature, sections), 4 + |Body(sections[..k])| + |sections[k].bytes|)
  {
    hide At, EncSection, EncFile, Body, EntriesOf, EncEntries, EndsProperties;
    var buf := EncFile(signature, sections);
    FileParts(signature, sections);
    BodyGrows(sections, k);
    SectionAt(buf, 4, sections, k + 1);
    SectionStart(buf, 4 + |Body(sections[..k + 1])|, next, skipped);
  }

  lemma AfterLast(signature: int, sections: seq<SectionBytes>)
    requires sections != [] && 0 <= sections[0].number <= SECTION_VALUE
    ensures var k := |sections| - 1;
            EndsProperties(EncFile(signature, sections), 4 + |Body(sections[..k])| + |sections[k].bytes|)
  {
    hide At, EncFile, Body, EntriesOf, EncEntries, EndsProperties;
    var k := |sections| - 1;
    FileParts(signature, sections);
    BodyGrows(sections, k);
    assert sections[..k + 1] == sections;
    TableStart(EncFile(signature, sections), 4 + |Body(sections)|, sections);
  }

  lemma {:induction false} BodyGrows(sections: seq<SectionBytes>, k: nat)
    requires k < |sections|
    ensures |Body(sections[..k + 1])| == |Body(sections[..k])| + |sections[k].bytes|
    decreases k
  {
    if k > 0 {
      BodyGrows(sections[1..], k - 1);
      assert sections[..k + 1][1..] == sections[1..][..k] && sections[..k][1..] == sections[1..][..k - 1];
    } else {
      assert sections[..1][1..] == [];
    }
  }

  lemma {:induction false} SectionStart(buf: Bytes, p: nat, s: Source, skipped: Skipped)
    requires At(buf, p, EncSection(s, p, skipped))
    ensures EndsProperties(buf, p)
  {
    hide At, EncWord, EndsProperties, EncChildren, Marker;
    var bytes := EncSection(s, p, skipped);
    assert EncWord(TAG_SECTION) <= bytes;
    assert bytes == EncWord(TAG_SECTION) + bytes[4..];
    TagEndsBlock(buf, p, TAG_SECTION, bytes[4..]);
  }

  /** The table of a written file starts with the number of its first section. */
  lemma {:induction false} TableStart(buf: Bytes, p: nat, sections: seq<SectionBytes>)
    requires sections != [] && 0 <= sections[0].number <= SECTION_VALUE
             && At(buf, p, EncEntries(EntriesOf(sections, 4)))
    ensures EndsProperties(buf, p)
  {
    hide At, EncWord, EndsProperties;
    var entries := EntriesOf(sections, 4);
    var number, tail := entries[0].number, EncWord(entries[0].offset) + EncEntries(entries[1..]);
    assert EncEntries(entries) == EncWord(number) + tail;
    TagEndsBlock(buf, p, number, tail);
  }

  lemma {:induction false} NumbersAgree(sources: seq<Source>, base: nat, skipped: Skipped)
    ensures forall k :: 0 <= k < |sources| ==> Assemble(sources, base, skipped)[k].number == Number(sources[k])
    decreases |sources|
  {
    hide EncSection;
    if sources != [] {
      NumbersAgree(sources[1..], base + |EncSection(sources[0], base, FirstOf(skipped))|, RestOf(skipped));
    }
  }

  lemma DistinctNumbers(sources: seq<Source>, skipped: Skipped)
    requires Shaped(sources, skipped)
    ensures FileShape(WordOf(FirstOf(skipped)), WrittenSections(sources, skipped))
  {
    hide EncSection, EncFile, LayoutIn, EncodableSource;
    NumbersAgree(sources, 4, RestOf(skipped));
    var sections := WrittenSections(sources, skipped);
    var entries := EntriesOf(sections, 4);
    forall j, k | 0 <= j < |entries| && 0 <= k < |entries| && Numbers(entries)[j] == Numbers(entries)[k]
      ensures j == k
    {
      assert entries[j].number == sections[j].number == Number(sources[j]);
      assert entries[k].number == sections[k].number == Number(sources[k]);
    }
  }

  lemma SourceEncodable(sources: seq<Source>, skipped: Skipped, k: nat)
    requires Shaped(sources, skipped) && k < |sources|
    ensures EncodableSource(sources[k]) && |EncSources(sources, skipped)| < WORD
  {
    hide EncSources, EncodableSource, LayoutIn;
  }

  lemma FrontSectionsRead(sources: seq<Source>, skipped: Skipped, buf: Bytes, sections: map<int, Section>)
    requires Shaped(sources, skipped) && buf == EncSources(sources, skipped)
    requires ReadSectionTable(buf) == Ok(sections)
    ensures ParseHeader(buf, OffsetOf(sections, SECTION_HEADER)).Ok?
    ensures ParseHeader(buf, OffsetOf(sections, SECTION_HEADER)).value.0 == HeaderOf(sources)
    ensures ParseIndexedSection(TypeKind, map[], buf, sections, SECTION_TYPE) == Ok(TypesOf(sources))
  {
    hide At, EncSection, EncSources, ReadSectionTable, ParseHeader, ParseIndexed, Shaped, PositionOf;
    HeaderPresent(sources, skipped);
    SourceAt(sources, skipped, SECTION_HEADER);
    var h := SourceNumbered(sources, SECTION_HEADER).value;
    SourceEncodable(sources, skipped, h);
    HeaderRead(buf, sections[SECTION_HEADER].offset, sources[h].props, sources[h].marked, PartsOf(skipped, h));
    SourceAt(sources, skipped, SECTION_TYPE);
    match SourceNumbered(sources, SECTION_TYPE)
    case None =>
    case Some(k) =>
      SourceEncodable(sources, skipped, k);
      TypesRead(buf, sections[SECTION_TYPE].offset, sources[k].defs, sources[k].typeIndex,
                PartsOf(skipped, k));
  }

  lemma {:induction false} HeaderPresent(sources: seq<Source>, skipped: Skipped)
    requires Shaped(sources, skipped)
    ensures SourceNumbered(sources, SECTION_HEADER).Some? && |EncSources(sources, skipped)| < WORD
  {
  }

  lemma MiddleSectionsRead(sources: seq<Source>, skipped: Skipped, buf: Bytes, sections: map<int, Section>)
    requires Shaped(sources, skipped) && buf == EncSources(sources, skipped)
    requires ReadSectionTable(buf) == Ok(sections)
    ensures ParseSweepSection(buf, sections) == Ok(SweepsOf(sources))
    ensures ParseIndexedSection(TraceKind, map[], buf, sections, SECTION_TRACE) == Ok(TracesOf(sources))
  {
    hide At, EncSection, EncSources, ReadSectionTable, ParseSimple, ParseIndexed, Shaped, PositionOf, EncIndexed,
         EncodableChildren;
    SourceAt(sources, skipped, SECTION_SWEEP);
    match SourceNumbered(sources, SECTION_SWEEP) {
      case None =>
      case Some(k) =>
        SourceEncodable(sources, skipped, k);
        AfterSource(sources, skipped, SECTION_SWEEP);
        SweepsRead(buf, sections[SECTION_SWEEP].offset, sources[k].refs, sources[k].marked,
                   PartsOf(skipped, k));
    }
    SourceAt(sources, skipped, SECTION_TRACE);
    match SourceNumbered(sources, SECTION_TRACE) {
      case None =>
      case Some(k) =>
        SourceEncodable(sources, skipped, k);
        ChunksRead(TraceKind, map[], buf, sections[SECTION_TRACE].offset, sources[k], PartsOf(skipped, k));
    }
  }

  lemma {:induction false} ChunksRead(kind: Kind, types: TypeTable, buf: Bytes, p: nat, s: Source, skipped: Skipped)
    requires (s.TraceSource? && kind == TraceKind && types == map[]) || (s.UnsweptSource? && kind == ValueKind)
    requires EncodableChildren(kind, types, if s.TraceSource? then s.traces else s.values)
    requires At(buf, p, EncSection(s, p, skipped)) && |buf| < WORD
    ensures ParseIndexed(kind, types, buf, p).Ok?
    ensures ParseIndexed(kind, types, buf, p).value.0 == Denoted(types, if s.TraceSource? then s.traces else s.values)
  {
    hide At, ParseIndexed, EncIndexed, EncodableChildren;
    if s.TraceSource? {
      IndexedRoundTrip(kind, types, buf, p, s.traces, skipped, s.traceIndex);
    } else {
      IndexedRoundTrip(kind, types, buf, p, s.values, skipped, s.valueIndex);
    }
  }

  /** The conditions on a value section. */
  lemma {:induction false} ValueConditions(sources: seq<Source>, skipped: Skipped)
    requires Shaped(sources, skipped) && SourceNumbered(sources, SECTION_VALUE).Some?
    ensures var s := sources[SourceNumbered(sources, SECTION_VALUE).value];
            && (s.SweptSource? <==> SourceNumbered(sources, SECTION_SWEEP).Some?)
            && (s.SweptSource? ==> (s.pad.Some? <==> Windowed(sources)) && LayoutIn(sources).Ok?)
            && (s.SweptSource? || s.UnsweptSource?)
  {
    hide EncSources, LayoutIn, EncodableSource, Windowed;
  }

  lemma WritableShape(sources: seq<Source>, skipped: Skipped)
    requires Writable(sources, skipped)
    ensures Shaped(sources, skipped)
    ensures forall k :: 0 <= k < |sources| && sources[k].UnsweptSource? ==>
              EncodableChildren(ValueKind, FileTypes(sources), sources[k].values)
  {
    hide Shaped, FileTypes, EncodableChildren;
  }

  lemma {:induction false} ValuesRead(sources: seq<Source>, skipped: Skipped, buf: Bytes, sections: map<int, Section>)
    requires Writable(sources, skipped) && buf == EncSources(sources, skipped)
    requires ReadSectionTable(buf) == Ok(sections)
    ensures ParseValueSection(buf, sections, FileModel(HeaderOf(sources), TypesOf(sources), SweepsOf(sources),
                                                       TracesOf(sources), None, None))
         == Ok(Contents(sources, skipped))
    ensures var swept := SweptIn(sources, skipped);
            swept.Some? ==> At(buf, swept.value.start, sources[SourceNumbered(sources, SECTION_VALUE).value].payload)
  {
    hide At, EncSection, EncSources, ReadSectionTable, ParseSweptValues, ParseIndexed, Writable, Shaped, PositionOf,
         EncodableSource, TypeTableOf, HeaderOf, TypesOf, WindowOf, IsWindowed, Windowed, WindowIn, Layout, AddSlots,
         Total, FrontSize;
    WritableShape(sources, skipped);
    SourceAt(sources, skipped, SECTION_VALUE);
    match SourceNumbered(sources, SECTION_VALUE)
    case None =>
    case Some(k) =>
      ValueConditions(sources, skipped);
      WindowFound(sources);
      SourceEncodable(sources, skipped, k);
      var p := sections[SECTION_VALUE].offset;
      if sources[k].SweptSource? {
        SweptSection(sources[k], p, PartsOf(skipped, k));
        SweptRead(buf, p, sources[k].pad, sources[k].payload, HeaderOf(sources), FileTypes(sources),
                  TracesOf(sources).value, WindowIn(sources).value, LayoutIn(sources).value);
      } else {
        ChunksRead(ValueKind, FileTypes(sources), buf, p, sources[k], PartsOf(skipped, k));
      }
  }

  lemma SweptSection(s: Source, p: nat, skipped: Skipped)
    requires s.SweptSource?
    ensures EncSection(s, p, skipped) == EncSwept(p, s.pad, s.payload)
  {
  }

  /** Whole-file round trip: whatever sections a file has and in whatever order they stand, opening it gives back
      the header, the types, the sweeps, the traces and the values that were written. */
  lemma {:induction false} FileIsReadBack(sources: seq<Source>, skipped: Skipped)
    requires Writable(sources, skipped)
    ensures OpenFile(EncSources(sources, skipped)) == Ok(Contents(sources, skipped))
    ensures var swept := SweptIn(sources, skipped);
            swept.Some? ==> At(EncSources(sources, skipped), swept.value.start,
                               sources[SourceNumbered(sources, SECTION_VALUE).value].payload)
  {
    hide At, EncSources, ReadSectionTable, ParseHeader, ParseIndexedSection, ParseSweepSection, ParseValueSection,
         Writable, Shaped, Contents, SweptIn, HeaderOf, TypesOf, SweepsOf, TracesOf, IsPsf;
    var buf := EncSources(sources, skipped);
    WritableShape(sources, skipped);
    SourceAt(sources, skipped, SECTION_HEADER);
    var sections := ReadSectionTable(buf).value;
    FrontSectionsRead(sources, skipped, buf, sections);
    MiddleSectionsRead(sources, skipped, buf, sections);
    ValuesRead(sources, skipped, buf, sections);
  }
}
