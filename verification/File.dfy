/** Whole files: dispatch of the sections, and the queries answered from them. */
module File {
  import opened Base
  import opened Words
  import opened Properties
  import opened Values
  import opened Chunks
  import opened Containers
  import opened Traces
  import opened Offsets
  import opened Sweeps
  import opened Sections

  const SECTION_HEADER := 0
  const SECTION_TYPE := 1
  const SECTION_SWEEP := 2
  const SECTION_TRACE := 3
  const SECTION_VALUE := 4

  const TAG_ZERO_PAD := 20

  /** An opened section of swept values: its layout and where the values start. */
  datatype SweptValues = SweptValues(windowed: bool, offsets: map<int, int>, valueSize: int, start: int)

  /** An opened file. */
  datatype FileModel = FileModel(
    header: seq<Property>, types: Option<Children>, sweeps: Option<Children>, traces: Option<Children>,
    swept: Option<SweptValues>, unswept: Option<Children>)

  /** The definitions of the type section by identifier; without the section every lookup is undefined. */
  function TypeTableOf(types: Option<Children>): TypeTable {
    if types.None? then map[]
    else
      var ids := IdMap(types.value);
      map id | id in ids && ids[id].TypeChunk? :: ids[id].def
  }

  // ---------------------------------------------------------------- parsing

  function ParseZeroPad(buf: Bytes, p: int): Result<int> {
    var q :- ParseTag(buf, p, Some(TAG_ZERO_PAD));
    var size :- GetWord(buf, q);
    Ok(q + 4 + size)
  }

  predicate IsWindowed(header: seq<Property>) {
    WINDOW_SIZE in PropertyMap(header)
  }

  /** The window size a layout is made for, if values are windowed. */
  function WindowOf(header: seq<Property>): Result<Option<int>> {
    if IsWindowed(header) then
      var size :- FindInt(header, WINDOW_SIZE);
      Ok(Some(size))
    else
      Ok(None)
  }

  function ValuesStart(buf: Bytes, p: int, windowed: bool): Result<int> {
    if windowed then ParseZeroPad(buf, p) else Ok(p)
  }

  /** `ValueSectionSweep::deserialize`; the position returned is the section's declared end. */
  function ParseSweptValues(buf: Bytes, abspos: int, header: seq<Property>, types: TypeTable, traces: Option<Children>)
    : Parsed<SweptValues>
  {
    var q :- ParseTag(buf, abspos, Some(TAG_SECTION));
    var endpos :- GetWord(buf, q);
    var start :- ValuesStart(buf, q + 4, IsWindowed(header));
    var window :- WindowOf(header);
    if traces.None? then Err(Undefined)
    else
      var items :- Layout(types, traces.value, window);
      Ok((SweptValues(IsWindowed(header), AddSlots(map[], items, 0), Total(items), start), endpos))
  }

  /** The offset of a section; a missing section is inserted with offset 0 when it is asked for. */
  function OffsetOf(sections: map<int, Section>, number: int): int {
    if number in sections then sections[number].offset else 0
  }

  function ParseIndexedSection(kind: Kind, types: TypeTable, buf: Bytes, sections: map<int, Section>, number: int)
    : Result<Option<Children>>
  {
    if number !in sections then Ok(None)
    else
      var (children, _) :- ParseIndexed(kind, types, buf, sections[number].offset);
      Ok(Some(children))
  }

  function ParseSweepSection(buf: Bytes, sections: map<int, Section>): Result<Option<Children>> {
    if SECTION_SWEEP !in sections then Ok(None)
    else
      var (children, _) :- ParseSimple(SweepKind, buf, sections[SECTION_SWEEP].offset);
      Ok(Some(children))
  }

  /** The value section is swept exactly when there is a sweep section. */
  function ParseValueSection(buf: Bytes, sections: map<int, Section>, m: FileModel): Result<FileModel> {
    if SECTION_VALUE !in sections then Ok(m)
    else if m.sweeps.Some? then
      var (values, _) :- ParseSweptValues(buf, sections[SECTION_VALUE].offset, m.header, TypeTableOf(m.types),
                                          m.traces);
      Ok(m.(swept := Some(values)))
    else
      var (values, _) :- ParseIndexed(ValueKind, TypeTableOf(m.types), buf, sections[SECTION_VALUE].offset);
      Ok(m.(unswept := Some(values)))
  }

  function ParseSections(buf: Bytes, sections: map<int, Section>): Result<FileModel> {
    var (header, _) :- ParseHeader(buf, OffsetOf(sections, SECTION_HEADER));
    var types :- ParseIndexedSection(TypeKind, map[], buf, sections, SECTION_TYPE);
    var sweeps :- ParseSweepSection(buf, sections);
    var traces :- ParseIndexedSection(TraceKind, map[], buf, sections, SECTION_TRACE);
    ParseValueSection(buf, sections, FileModel(header, types, sweeps, traces, None, None))
  }

  /** `PSFFile::deserialize`. */
  function ParseFile(buf: Bytes): Result<FileModel> {
    var sections :- ReadSectionTable(buf);
    ParseSections(buf, sections)
  }

  /** `PSFFile::open` on the mapped bytes. */
  function OpenFile(buf: Bytes): Result<FileModel> {
    if IsPsf(buf) then ParseFile(buf) else Err(InvalidFile)
  }

  // ---------------------------------------------------------------- queries

  function ViewOf(m: FileModel, values: SweptValues): FileView {
    var sweeps := if m.sweeps.Some? then m.sweeps.value else [];
    FileView(m.header, TypeTableOf(m.types), sweeps, values.offsets, values.valueSize)
  }

  /** One decode of the value section for a filter, by the decoder the header selects. */
  function DecodeSelected(m: FileModel, values: SweptValues, buf: Bytes, filter: seq<TypeRef>): Result<State> {
    var total :- FindInt(m.header, SWEEP_POINTS);
    if values.windowed then DecodeWindowed(ViewOf(m, values), filter, buf, values.start, total, [])
    else DecodeSimple(ViewOf(m, values), filter, buf, values.start, total, [], [])
  }

  /** `get_values(name)`: nothing for a file without swept values. */
  function Signal(m: FileModel, buf: Bytes, name: Bytes): Result<Option<Cells>> {
    if m.swept.None? then Ok(None)
    else if m.traces.None? then Err(Undefined)
    else
      var trace :- TraceByName(m.traces.value, name);
      var st :- DecodeSelected(m, m.swept.value, buf, [trace]);
      if st.cols == [] then Err(OutOfRange) else Ok(Some(st.cols[0]))
  }

  /** `get_param_values`. */
  function ParamValues(m: FileModel, buf: Bytes): Result<Option<Cells>> {
    if m.swept.None? then Ok(None)
    else
      var st :- DecodeSelected(m, m.swept.value, buf, []);
      Ok(Some(st.params))
  }

  /** `get_value(name)`: without a section of unswept values the source returns nothing. */
  function ScalarNamed(m: FileModel, name: Bytes): Result<Value> {
    if m.unswept.None? then Err(Undefined)
    else
      var c :- ChildNamed(m.unswept.value, name);
      if c.ValueChunk? then Ok(c.value) else Err(BadCast)
  }

  /** `get_names`: traces if there is a trace section, otherwise unswept values. */
  function SignalNames(m: FileModel): Result<seq<Bytes>> {
    if m.traces.Some? then Ok(TraceNames(m.traces.value))
    else if m.unswept.Some? then Ok(Names(m.unswept.value))
    else Err(Undefined)
  }

  // ---------------------------------------------------------------- objects

  lemma TraceSectionKind(buf: Bytes, abspos: int)
    ensures ParseIndexed(TraceKind, map[], buf, abspos).Ok? ==>
              TraceChildren(ParseIndexed(TraceKind, map[], buf, abspos).value.0)
  {
    hide ParseIndexedHead, ParseChildren, ParseIndex;
    var head := ParseIndexedHead(TraceKind, buf, abspos);
    if head.Ok? && ParseChildren(TraceKind, map[], buf, abspos + 16, head.value.1).Ok? {
      ChildrenKind(TraceKind, map[], buf, abspos + 16, head.value.1);
    }
  }

  /** `ValueSectionSweep`. */
  class ValueSectionSweep {
    const offsetMap: OffsetMap
    const windowed: bool
    var valueStart: int

    constructor (header: seq<Property>)
      ensures fresh(offsetMap) && offsetMap.offsets == map[] && windowed == IsWindowed(header)
    {
      offsetMap := new OffsetMap();
      windowed := IsWindowed(header);
      valueStart := 0;
    }

    function Contents(): SweptValues
      reads this, offsetMap
    {
      SweptValues(windowed, offsetMap.offsets, offsetMap.valueSize, valueStart)
    }

    method Deserialize(buf: Bytes, abspos: int, header: seq<Property>, types: TypeTable, traces: Option<Children>)
      returns (r: Result<int>)
      requires windowed == IsWindowed(header) && offsetMap.offsets == map[]
      modifies this, offsetMap
      ensures match ParseSweptValues(buf, abspos, header, types, traces)
              case Ok((values, endpos)) => r == Ok(endpos - abspos) && Contents() == values
              case Err(e) => r == Err(e)
    {
      hide ValuesStart, WindowOf, Layout, AddSlots, Total, IsWindowed;
      var q :- ParseTag(buf, abspos, Some(TAG_SECTION));
      var endpos :- GetWord(buf, q);
      var start :- ValuesStart(buf, q + 4, windowed);
      var window :- WindowOf(header);
      if traces.None? { return Err(Undefined); }
      var created :- offsetMap.Create(types, traces.value, window);
      valueStart := start;
      return Ok(endpos - abspos);
    }

    /** `get_values(filter)`: a new value is decoded from the start of the section. */
    method GetValues(m: FileModel, buf: Bytes, filter: seq<TypeRef>) returns (v: SweepValue, r: Result<()>)
      ensures fresh(v)
      ensures match DecodeSelected(m, Contents(), buf, filter)
              case Ok(st) => r == Ok(()) && v.paramValues == Some(st.params) && v.data == st.cols
              case Err(e) => r == Err(e)
    {
      hide FindInt, DecodeWindowed, DecodeSimple, ViewOf;
      v := new SweepValue();
      var total := FindInt(m.header, SWEEP_POINTS);
      if total.Err? { return v, Err(total.error); }
      var view := ViewOf(m, Contents());
      var moved;
      if windowed {
        moved := v.DeserializeWindowed(view, filter, buf, valueStart, total.value);
      } else {
        moved := v.DeserializeSimple(view, filter, buf, valueStart, total.value);
      }
      return v, if moved.Ok? then Ok(()) else Err(moved.error);
    }
  }

  class PSFFile {
    const buffer: Bytes
    var header: HeaderSection?
    var types: IndexedContainer?
    var sweeps: SimpleContainer?
    var traces: IndexedContainer?
    var sweepValues: ValueSectionSweep?
    var nonSweepValues: IndexedContainer?

    ghost function Parts(): set<object>
      reads this
    {
      (if header == null then {} else {header.properties})
      + (if types == null then {} else {types})
      + (if sweeps == null then {} else {sweeps})
      + (if traces == null then {} else {traces})
      + (if sweepValues == null then {} else {sweepValues, sweepValues.offsetMap})
      + (if nonSweepValues == null then {} else {nonSweepValues})
    }

    ghost predicate Valid()
      reads this, Parts()
    {
      && header != null && header.properties.Valid()
      && (types != null ==> types.Valid())
      && (traces != null ==> traces.Valid() && TraceChildren(traces.children))
      && (nonSweepValues != null ==> nonSweepValues.Valid())
    }

    /** The contents of an open file. */
    ghost function Model(): FileModel
      requires Valid()
      reads this, Parts()
    {
      FileModel(
        header.properties.propList,
        if types == null then None else Some(types.children),
        if sweeps == null then None else Some(sweeps.children),
        if traces == null then None else Some(traces.children),
        if sweepValues == null then None else Some(sweepValues.Contents()),
        if nonSweepValues == null then None else Some(nonSweepValues.children))
    }

    constructor (bytes: Bytes)
      ensures buffer == bytes && header == null && types == null && sweeps == null && traces == null
      ensures sweepValues == null && nonSweepValues == null
    {
      buffer := bytes;
      header, types, sweeps, traces, sweepValues, nonSweepValues := null, null, null, null, null, null;
    }

    /** Opens the file: the sections are parsed in the order header, types, sweeps, traces, values. */
    method Open() returns (r: Result<()>)
      requires header == null && types == null && sweeps == null && traces == null
      requires sweepValues == null && nonSweepValues == null
      modifies this
      ensures match OpenFile(buffer)
              case Ok(m) => r == Ok(()) && Valid() && Model() == m
              case Err(e) => r == Err(e)
    {
      hide ReadSectionTable, ParseHeader, ParseIndexed, ParseSimple, ParseSweptValues, TypeTableOf, IsWindowed;
      if !IsPsf(buffer) { return Err(InvalidFile); }
      var sections :- DeserializeSections(buffer);
      r := DeserializeHeader(sections);
      if r.Err? { return; }
      r := DeserializeTypes(sections);
      if r.Err? { return; }
      r := DeserializeSweeps(sections);
      if r.Err? { return; }
      r := DeserializeTraces(sections);
      if r.Err? { return; }
      r := DeserializeValues(sections);
    }

    method DeserializeHeader(sections: map<int, Section>) returns (r: Result<()>)
      requires types == null && sweeps == null && traces == null && sweepValues == null && nonSweepValues == null
      modifies this
      ensures match ParseHeader(buffer, OffsetOf(sections, SECTION_HEADER))
              case Ok((props, _)) => r == Ok(()) && Valid() && Model() == FileModel(props, None, None, None, None, None)
              case Err(e) => r == Err(e)
    {
      hide ParseHeader;
      var section := new HeaderSection();
      var end :- section.Deserialize(buffer, OffsetOf(sections, SECTION_HEADER));
      header := section;
      types, sweeps, traces, sweepValues, nonSweepValues := null, null, null, null, null;
      return Ok(());
    }

    method DeserializeTypes(sections: map<int, Section>) returns (r: Result<()>)
      requires Valid() && types == null
      modifies this`types
      ensures match ParseIndexedSection(TypeKind, map[], buffer, sections, SECTION_TYPE)
              case Ok(children) => r == Ok(()) && Valid() && Model() == old(Model()).(types := children)
              case Err(e) => r == Err(e)
    {
      hide ParseIndexed;
      if SECTION_TYPE !in sections { return Ok(()); }
      var section := new IndexedContainer();
      var consumed :- section.Deserialize(TypeKind, map[], buffer, sections[SECTION_TYPE].offset);
      types := section;
      return Ok(());
    }

    method DeserializeSweeps(sections: map<int, Section>) returns (r: Result<()>)
      requires Valid() && sweeps == null
      modifies this`sweeps
      ensures match ParseSweepSection(buffer, sections)
              case Ok(children) => r == Ok(()) && Valid() && Model() == old(Model()).(sweeps := children)
              case Err(e) => r == Err(e)
    {
      hide ParseSimple;
      if SECTION_SWEEP !in sections { return Ok(()); }
      var section := new SimpleContainer();
      var end :- section.Deserialize(SweepKind, buffer, sections[SECTION_SWEEP].offset);
      assert forall cs: Children :: [] + cs == cs;
      sweeps := section;
      return Ok(());
    }

    method DeserializeTraces(sections: map<int, Section>) returns (r: Result<()>)
      requires Valid() && traces == null
      modifies this`traces
      ensures match ParseIndexedSection(TraceKind, map[], buffer, sections, SECTION_TRACE)
              case Ok(children) => r == Ok(()) && Valid() && Model() == old(Model()).(traces := children)
              case Err(e) => r == Err(e)
    {
      hide ParseIndexed;
      if SECTION_TRACE !in sections { return Ok(()); }
      TraceSectionKind(buffer, sections[SECTION_TRACE].offset);
      var section := new IndexedContainer();
      var consumed :- section.Deserialize(TraceKind, map[], buffer, sections[SECTION_TRACE].offset);
      traces := section;
      return Ok(());
    }

    method DeserializeValues(sections: map<int, Section>) returns (r: Result<()>)
      requires Valid() && sweepValues == null && nonSweepValues == null
      modifies this`sweepValues, this`nonSweepValues
      ensures match ParseValueSection(buffer, sections, old(Model()))
              case Ok(m) => r == Ok(()) && Valid() && Model() == m
              case Err(e) => r == Err(e)
    {
      hide ParseIndexed, ParseSweptValues, IsWindowed, TypeTableOf;
      if SECTION_VALUE !in sections { return Ok(()); }
      var abspos := sections[SECTION_VALUE].offset;
      var table := TypeTableOf(if types == null then None else Some(types.children));
      if sweeps != null {
        var section := new ValueSectionSweep(header.properties.propList);
        var consumed := section.Deserialize(buffer, abspos, header.properties.propList, table,
                                            if traces == null then None else Some(traces.children));
        if consumed.Err? { return Err(consumed.error); }
        sweepValues := section;
      } else {
        var section := new IndexedContainer();
        var consumed :- section.Deserialize(ValueKind, table, buffer, abspos);
        nonSweepValues := section;
      }
      return Ok(());
    }

    method ModelNow() returns (m: FileModel)
      requires Valid()
      ensures m == Model()
    {
      m := FileModel(
        header.properties.propList,
        if types == null then None else Some(types.children),
        if sweeps == null then None else Some(sweeps.children),
        if traces == null then None else Some(traces.children),
        if sweepValues == null then None else Some(sweepValues.Contents()),
        if nonSweepValues == null then None else Some(nonSweepValues.children));
    }

    /** `get_values(name)`. */
    method GetValues(name: Bytes) returns (r: Result<Option<Cells>>)
      requires Valid()
      ensures r == Signal(Model(), buffer, name)
    {
      hide TraceByName, DecodeSelected;
      if sweepValues == null { return Ok(None); }
      if traces == null { return Err(Undefined); }
      var trace :- GetTraceByName(traces, name);
      var m := ModelNow();
      var v, done := sweepValues.GetValues(m, buffer, [trace]);
      if done.Err? { return Err(done.error); }
      return if v.data == [] then Err(OutOfRange) else Ok(Some(v.data[0]));
    }

    /** `get_param_values`. */
    method GetParamValues() returns (r: Result<Option<Cells>>)
      requires Valid()
      ensures r == ParamValues(Model(), buffer)
    {
      hide DecodeSelected;
      if sweepValues == null { return Ok(None); }
      var m := ModelNow();
      var v, done := sweepValues.GetValues(m, buffer, []);
      if done.Err? { return Err(done.error); }
      return Ok(v.paramValues);
    }

    /** `get_names`. */
    method ListSignals() returns (r: Result<seq<Bytes>>)
      requires Valid()
      ensures r == SignalNames(Model())
    {
      if traces != null {
        var names := GetNames(traces.children);
        return Ok(names);
      } else if nonSweepValues != null {
        var names := ListNames(nonSweepValues.children);
        return Ok(names);
      } else {
        return Err(Undefined);
      }
    }

    /** `get_value(name)`. */
    method GetValue(name: Bytes) returns (r: Result<Value>)
      requires Valid()
      ensures r == ScalarNamed(Model(), name)
    {
      if nonSweepValues == null { return Err(Undefined); }
      var child :- nonSweepValues.GetChildByName(name);
      return if child.ValueChunk? then Ok(child.value) else Err(BadCast);
    }
  }

  /** What a caller does with a data set: open the file, then ask for a signal. */
  method ReadSignal(bytes: Bytes, name: Bytes) returns (r: Result<Option<Cells>>)
    ensures r == match OpenFile(bytes)
                 case Ok(m) => Signal(m, bytes, name)
                 case Err(e) => Err(e)
  {
    hide OpenFile, Signal;
    var file := new PSFFile(bytes);
    var outcome :- file.Open();
    r := file.GetValues(name);
  }
}
