/** Unswept values whose type holds a complex number inside a struct: the properties behind such a value are looked
    for too early, and zeros there end the parse of the whole file. */
module Unswept {
  import opened Base
  import opened Words
  import opened Properties
  import opened Types
  import opened Values
  import opened Legibility
  import opened Chunks
  import opened Containers
  import opened Sections
  import opened File
  import opened FileRoundTrip

  // ---------------------------------------------------------------- one value

  /** A written value is parsed as what it denotes, up to its end. */
  ghost predicate ValueReadBack(types: TypeTable, c: Chunk<Datum>, skipped: Skipped, buf: Bytes, p: int)
    requires c.ValueChunk?
  {
    ParseValue(types, buf, p) == Ok((Denotes(types, c), p + |EncValue(c, skipped)|))
  }

  /** A value that holds nothing but zeros, and has no properties. */
  ghost predicate ZeroValue(types: TypeTable, c: Chunk<Datum>) {
    && c.ValueChunk? && IsInt32(c.valueId) && IsString(c.valueName) && IsInt32(c.typeId) && c.props == []
    && c.typeId in types && c.value == ZeroDatum(types[c.typeId].body)
  }

  lemma ZeroValueTyped(types: TypeTable, c: Chunk<Datum>)
    requires ZeroValue(types, c)
    ensures TypedValue(types, c)
  {
  }

  /** The parser stops inside the zeros of such a value, 8 bytes early for every complex number inside a struct. */
  lemma ZeroValueParsed(types: TypeTable, buf: Bytes, p: int, c: Chunk<Datum>, skipped: Skipped)
    requires ZeroValue(types, c) && NestedComplex(types[c.typeId].body) > 0 && At(buf, p, EncValue(c, skipped))
    ensures GetInt(buf, p) == Ok(TAG_VALUE) && ParseValue(types, buf, p).Ok?
    ensures var q := ParseValue(types, buf, p).value.1;
            GetInt(buf, q) == Ok(0) && q < p + |EncValue(c, skipped)|
  {
    hide At, GetInt, ParseValueHead, EncString, EncValue, EncDatum, HasType, ZeroDatum, AllZero, DataSize,
         ComplexLeaves, DecodeFields, ZerosIn;
    ZeroValueTyped(types, c);
    ValuePartsAt(types, buf, p, c, skipped);
    var q, body := p + 12 + |EncString(c.valueName, FirstOf(skipped))|, types[c.typeId].body;
    ZeroStructDecoded(body, buf, q);
    var r := DecodeData(body, buf, q).value.1;
    NoProperty(buf, r);
  }

  /** Zeros behind a decoded struct of zeros. */
  lemma {:induction false} ZeroStructDecoded(body: TypeBody, buf: Bytes, q: int)
    requires NestedComplex(body) > 0 && At(buf, q, EncDatum(ZeroDatum(body)))
    ensures DecodeData(body, buf, q).Ok?
    ensures var r := DecodeData(body, buf, q).value.1;
            GetInt(buf, r) == Ok(0) && r < q + |EncDatum(ZeroDatum(body))|
  {
    hide At, GetInt, EncDatum, ZeroDatum, AllZero, DataSize, ComplexLeaves, DecodeFields, ZerosIn;
    ZeroDatumBytes(body);
    AtInside(buf, q, EncDatum(ZeroDatum(body)));
    FieldDecodes(body, buf, q);
    assert ZerosIn(buf, q, q) by { NoZeros(buf, q, EncDatum(ZeroDatum(body))); }
    ZeroFieldPassed(body, buf, q, q);
    var r := DecodeData(body, buf, q).value.1;
    ZerosFront(buf, r, q + DataSize(body));
    ZeroWordRead(buf, r);
  }

  lemma NoZeros(buf: Bytes, p: int, s: Bytes)
    requires At(buf, p, s)
    ensures ZerosIn(buf, p, p)
  {
  }

  lemma {:induction false} NoProperty(buf: Bytes, p: int)
    requires GetInt(buf, p) == Ok(0)
    ensures ParseProperties(buf, p) == Ok(([], p))
  {
    hide GetInt;
  }

  /** All values of a type are read back, in front of a word that does not continue their properties, exactly when
      no struct of the type holds a complex number. */
  lemma ValueReadBackExactly(types: TypeTable, typeId: int)
    requires typeId in types && IsInt32(typeId)
    ensures NestedComplex(types[typeId].body) == 0 <==>
            forall c: Chunk<Datum>, skipped, buf, p ::
              c.ValueChunk? && c.typeId == typeId && TypedValue(types, c)
              && At(buf, p, EncValue(c, skipped)) && EndsProperties(buf, p + |EncValue(c, skipped)|)
              ==> ValueReadBack(types, c, skipped, buf, p)
  {
    hide At, TypedValue, EncValue, EndsProperties, NestedComplex, ParseValue, Denotes, ZeroDatum;
    if NestedComplex(types[typeId].body) == 0 {
      forall c: Chunk<Datum>, skipped, buf, p
        | c.ValueChunk? && c.typeId == typeId && TypedValue(types, c)
          && At(buf, p, EncValue(c, skipped)) && EndsProperties(buf, p + |EncValue(c, skipped)|)
        ensures ValueReadBack(types, c, skipped, buf, p)
      {
        ValueRoundTrip(types, buf, p, c, skipped);
      }
    } else {
      var c := ValueChunk(0, [], typeId, ZeroDatum(types[typeId].body), []);
      var bytes, end := EncValue(c, Nothing), EncWord(TAG_SECTION);
      var buf := bytes + end;
      AtSelf([], buf, []);
      assert [] + buf + [] == buf;
      AtSplit(buf, 0, bytes, end);
      assert end + [] == end;
      TagEndsBlock(buf, |bytes|, TAG_SECTION, []);
      ZeroValueTyped(types, c);
      ZeroValueParsed(types, buf, 0, c, Nothing);
    }
  }

  // ---------------------------------------------------------------- a section of values

  /** A section in which such a value follows readable ones is refused, whatever stands behind it. */
  lemma {:induction false} ZeroValueRefused(types: TypeTable, buf: Bytes, p: int, bound: int,
                                            values: seq<Chunk<Datum>>, i: nat, skipped: Skipped)
    requires i < |values| && forall k :: 0 <= k < |values| ==> values[k].ValueChunk?
    requires forall k :: 0 <= k < i ==> EncodableChunk(ValueKind, types, values[k])
    requires ZeroValue(types, values[i]) && NestedComplex(types[values[i].typeId].body) > 0
    requires At(buf, p, EncChildren(values, skipped)) && p + |EncChildren(values, skipped)| <= bound
    requires EndsProperties(buf, p + |EncChildren(values, skipped)|)
    ensures ParseChildren(ValueKind, types, buf, p, bound).Err?
    decreases i
  {
    hide At, GetInt, ParseValue, EncChunk, EncodableChunk, EndsProperties, NestedComplex, ZeroValue, ParseChild;
    var first, rest := EncChunk(values[0], FirstOf(skipped)), EncChildren(values[1..], RestOf(skipped));
    AtSplit(buf, p, first, rest);
    if i == 0 {
      ZeroFirst(types, buf, p, bound, values[0], FirstOf(skipped));
    } else {
      ChildrenStart(buf, p + |first|, values[1..], RestOf(skipped));
      ChunkRoundTrip(ValueKind, types, buf, p, values[0], FirstOf(skipped));
      ChunkNotEmpty(values[0], FirstOf(skipped));
      assert forall k :: 0 <= k < |values[1..]| ==> values[1..][k] == values[k + 1];
      ZeroValueRefused(types, buf, p + |first|, bound, values[1..], i - 1, RestOf(skipped));
    }
  }

  lemma ChunkNotEmpty(c: Chunk<Datum>, skipped: Skipped)
    requires c.ValueChunk?
    ensures |EncChunk(c, skipped)| > 0
  {
  }

  lemma {:induction false} ZeroFirst(types: TypeTable, buf: Bytes, p: int, bound: int, c: Chunk<Datum>,
                                     skipped: Skipped)
    requires ZeroValue(types, c) && NestedComplex(types[c.typeId].body) > 0
    requires At(buf, p, EncChunk(c, skipped)) && p + |EncChunk(c, skipped)| <= bound
    ensures ParseChildren(ValueKind, types, buf, p, bound).Err?
  {
    hide At, GetInt, ParseValue, EncValue, NestedComplex, ZeroDatum;
    ZeroValueParsed(types, buf, p, c, skipped);
    var (value, q) := ParseValue(types, buf, p).value;
    assert EncChunk(c, skipped) == EncValue(c, skipped) && p < bound;
    assert ParseChild(ValueKind, types, buf, p) == Ok((Some(value), q));
    assert ParseChild(ValueKind, types, buf, q).Err?;
    assert ParseChildren(ValueKind, types, buf, q, bound).Err?;
  }

  // ---------------------------------------------------------------- a file

  lemma SectionRefused(types: TypeTable, buf: Bytes, abspos: nat, values: seq<Chunk<Datum>>, index: Bytes, i: nat,
                       skipped: Skipped)
    requires i < |values| && forall k :: 0 <= k < |values| ==> values[k].ValueChunk?
    requires forall k :: 0 <= k < i ==> EncodableChunk(ValueKind, types, values[k])
    requires ZeroValue(types, values[i]) && NestedComplex(types[values[i].typeId].body) > 0
    requires At(buf, abspos, EncIndexed(abspos, values, skipped, index)) && |buf| < WORD
    ensures ParseIndexed(ValueKind, types, buf, abspos).Err?
  {
    hide At, EncChildren, ParseChildren, EncodableChunk, EndsProperties, ParseIndex, ParseIndexedHead, EncIndexed,
         ZeroValue, NestedComplex;
    IndexedPartsAt(ValueKind, buf, abspos, values, skipped, index);
    var subend := abspos + 16 + |EncChildren(values, skipped)|;
    ZeroValueRefused(types, buf, abspos + 16, subend, values, i, skipped);
  }

  /** A file with such a value among its unswept values does not open. */
  lemma {:induction false} ComplexScalarsDoNotOpen(sources: seq<Source>, skipped: Skipped, n: nat, i: nat)
    requires Shaped(sources, skipped) && SourceNumbered(sources, SECTION_VALUE) == Some(n) && sources[n].UnsweptSource?
    requires i < |sources[n].values| && forall k :: 0 <= k < |sources[n].values| ==> sources[n].values[k].ValueChunk?
    requires forall k :: 0 <= k < i ==> EncodableChunk(ValueKind, FileTypes(sources), sources[n].values[k])
    requires ZeroValue(FileTypes(sources), sources[n].values[i])
    requires NestedComplex(FileTypes(sources)[sources[n].values[i].typeId].body) > 0
    ensures OpenFile(EncSources(sources, skipped)).Err?
  {
    hide At, EncSources, ReadSectionTable, ParseHeader, ParseIndexed, ParseSweepSection, Shaped, IsPsf, HeaderOf,
         TypesOf, SweepsOf, TracesOf, EncIndexed, EncodableChunk, ZeroValue, NestedComplex, PositionOf, TypeTableOf;
    var buf := EncSources(sources, skipped);
    SourceAt(sources, skipped, SECTION_VALUE);
    var sections := ReadSectionTable(buf).value;
    FrontSectionsRead(sources, skipped, buf, sections);
    MiddleSectionsRead(sources, skipped, buf, sections);
    ValueConditions(sources, skipped);
    SourceEncodable(sources, skipped, n);
    UnsweptHasNoSweeps(sources, skipped);
    SectionRefused(FileTypes(sources), buf, sections[SECTION_VALUE].offset, sources[n].values, sources[n].valueIndex, i,
                   PartsOf(skipped, n));
  }

  lemma {:induction false} UnsweptHasNoSweeps(sources: seq<Source>, skipped: Skipped)
    requires Shaped(sources, skipped) && SourceNumbered(sources, SECTION_SWEEP).None?
    ensures SweepsOf(sources) == None
  {
  }
}
