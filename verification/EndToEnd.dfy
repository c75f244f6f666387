/** From a table of values to the bytes of a file, and back to each signal by its name. */
module EndToEnd {
  import opened Base
  import opened Words
  import opened Keys
  import opened Properties
  import opened Types
  import opened Values
  import opened Chunks
  import opened Containers
  import opened Traces
  import opened Offsets
  import opened Sweeps
  import opened Runs
  import opened SweepLaws
  import opened SweepTables
  import opened WindowSlots
  import opened File
  import opened FileRoundTrip

  /** How the values of a table are stored. */
  datatype Storage = InWindows(windows: seq<Window>) | ByPoint

  function EncTable(s: Setup, table: Table, items: seq<Item>, total: nat, storage: Storage): Bytes {
    match storage
    case InWindows(windows) => EncWindows(table, items, 0, windows)
    case ByPoint => EncPoints(table, items, s.paramId, 0, total)
  }

  /** Storing the table this way, the parameter and the selected traces are read back. */
  ghost predicate ReadableIn(s: Setup, filter: seq<TypeRef>, total: nat, storage: Storage) {
    match storage
    case InWindows(windows) => ReadableWindows(s, filter, windows)
    case ByPoint => total > 0 ==> ReadableRuns(s, filter, 1)
  }

  /** The run a written file should lead to: its first sweep is the parameter, and the traces have the layout's
      offsets and size. */
  ghost predicate IsSetup(sources: seq<Source>, items: seq<Item>, s: Setup)
    requires SourceNumbered(sources, SECTION_SWEEP).Some?
  {
    var refs, types := sources[SourceNumbered(sources, SECTION_SWEEP).value].refs, FileTypes(sources);
    && refs != [] && refs[0].typeId in types && WindowIn(sources).Ok?
    && s == Setup(types, AddSlots(map[], items, 0), refs[0].id, types[refs[0].typeId].body, WindowIn(sources).value,
                  Total(items))
  }

  /** A file of swept values that holds the table: the header counts its points and, if the values are windowed,
      its traces; identifiers are distinct; the value section holds the encoded table and anything behind it. */
  ghost predicate HoldsTable(sources: seq<Source>, skipped: Skipped, s: Setup, items: seq<Item>, table: Table,
                             total: nat, storage: Storage)
  {
    && Writable(sources, skipped) && TracesOf(sources).Some? && LayoutIn(sources) == Ok(items) && DistinctSlots(items)
    && SourceNumbered(sources, SECTION_SWEEP).Some? && IsSetup(sources, items, s)
    && LastNumber(HeaderOf(sources), SWEEP_POINTS) == Some(total)
    && Typed(s, TracesOf(sources).value, table, total) && IsInt32(s.paramId)
    && (storage.InWindows? <==> Windowed(sources))
    && (storage.InWindows? ==>
          && s.window.Some? && s.window.value > 0
          && LastNumber(HeaderOf(sources), TRACES) == Some(|Leaves(TracesOf(sources).value)|)
          && LegalWindows(s, TracesOf(sources).value, 0, total, storage.windows))
    && SourceNumbered(sources, SECTION_VALUE).Some?
    && var values := sources[SourceNumbered(sources, SECTION_VALUE).value];
       values.SweptSource? && EncTable(s, table, items, total, storage) <= values.payload
  }

  /** Such a file is laid out as its run expects. */
  lemma FileIsLaid(sources: seq<Source>, skipped: Skipped, s: Setup, items: seq<Item>, table: Table, total: nat,
                   storage: Storage)
    requires HoldsTable(sources, skipped, s, items, table, total, storage)
    ensures SweptIn(sources, skipped).Some? && SweptIn(sources, skipped).value.windowed == storage.InWindows?
    ensures Laid(s, TracesOf(sources).value, items) && s.types == FileTypes(sources)
    ensures s.window.Some? <==> storage.InWindows?
  {
    hide Typed, LegalWindows, Writable, EncTable, Layout, AddSlots, Total, DistinctSlots, TypesOf, TracesOf, HeaderOf,
         SweepsOf, TypeTableOf, PositionOf, Leaves, FirstSweep, FindIn, LastNumber, PropertyNames;
    SweptPresent(sources, skipped, s, items, table, total, storage);
  }

  lemma SweptPresent(sources: seq<Source>, skipped: Skipped, s: Setup, items: seq<Item>, table: Table, total: nat,
                     storage: Storage)
    requires HoldsTable(sources, skipped, s, items, table, total, storage)
    ensures SweptIn(sources, skipped)
         == Some(SweptValues(Windowed(sources), s.offsets, s.advance, SweptIn(sources, skipped).value.start))
  {
    hide Typed, LegalWindows, Writable, EncTable, Layout, AddSlots, Total, DistinctSlots, TracesOf, PositionOf, Leaves,
         LastNumber, PropertyNames, FileTypes, WindowIn, Windowed;
  }

  /** The sweep section that is read is the one that was written. */
  lemma {:induction false} FirstOfSweeps(refs: seq<TypeRef>)
    requires refs != []
    ensures RefChunks<Value>(refs) != [] && FirstSweep(RefChunks(refs)) == Ok(refs[0])
  {
  }

  /** The run a reader prepares for such a file is the expected one. */
  lemma RunOfFile(sources: seq<Source>, skipped: Skipped, s: Setup, items: seq<Item>, table: Table, total: nat,
                  storage: Storage)
    requires HoldsTable(sources, skipped, s, items, table, total, storage) && SweptIn(sources, skipped).Some?
    ensures var view := ViewOf(Contents(sources, skipped), SweptIn(sources, skipped).value);
            if storage.InWindows? then WindowedSetup(view) == Ok(s) else PointSetup(view) == Ok(s)
    ensures FindInt(HeaderOf(sources), SWEEP_POINTS) == Ok(total)
  {
    hide Typed, LegalWindows, Writable, EncTable, Layout, DistinctSlots, TypesOf, TracesOf, HeaderOf, TypeTableOf,
         PositionOf, FindInt, FirstSweep, UnsweptIn, SweptIn, LayoutIn, RefChunks, Leaves, Total, AddSlots;
    var header := HeaderOf(sources);
    SweptPresent(sources, skipped, s, items, table, total, storage);
    HeaderNumber(header, SWEEP_POINTS, total);
    FirstOfSweeps(sources[SourceNumbered(sources, SECTION_SWEEP).value].refs);
    if storage.InWindows? {
      var count := |Leaves(TracesOf(sources).value)|;
      HeaderNumber(header, WINDOW_SIZE, s.window.value);
      HeaderNumber(header, TRACES, count);
      assert Total(items) == count * s.window.value by {
        FileIsLaid(sources, skipped, s, items, table, total, storage);
        WindowTotal(s, TracesOf(sources).value, items);
      }
    }
  }

  lemma {:induction false} WindowTotal(s: Setup, traces: Children, items: seq<Item>)
    requires Laid(s, traces, items) && s.window.Some?
    ensures Total(items) == |Leaves(traces)| * s.window.value
  {
    hide Total, AddSlots, Leaves, DistinctSlots, Layout;
    assert s.window == Some(s.window.value);
    WindowLayout(s.types, traces, s.window.value);
    UniformTotal(Leaves(traces), s.window.value);
  }

  lemma {:induction false} HeaderNumber(header: seq<Property>, name: Bytes, n: int)
    requires LastNumber(header, name) == Some(n)
    ensures FindInt(header, name) == Ok(n)
  {
    hide FindInt;
    FindIntExactly(header, name);
    NumberNamed(header, name);
  }

  lemma {:induction false} NumberNamed(header: seq<Property>, name: Bytes)
    requires LastNumber(header, name).Some?
    ensures name in PropertyNames(header)
    decreases |header|
  {
    var n := |header| - 1;
    if header[n].name != name {
      NumberNamed(header[..n], name);
      var i :| 0 <= i < n && PropertyNames(header[..n])[i] == name;
      assert PropertyNames(header)[i] == name;
    } else {
      assert PropertyNames(header)[n] == name;
    }
  }

  lemma PayloadRead(sources: seq<Source>, skipped: Skipped, s: Setup, items: seq<Item>, table: Table, total: nat,
                    storage: Storage)
    requires HoldsTable(sources, skipped, s, items, table, total, storage)
    ensures OpenFile(EncSources(sources, skipped)) == Ok(Contents(sources, skipped))
    ensures SweptIn(sources, skipped).Some?
    ensures At(EncSources(sources, skipped), SweptIn(sources, skipped).value.start,
               EncTable(s, table, items, total, storage))
  {
    hide At, Typed, LegalWindows, Writable, EncTable, Contents, SweptIn, EncSources, OpenFile, LayoutIn, IsSetup,
         Windowed;
    FileIsLaid(sources, skipped, s, items, table, total, storage);
    FileIsReadBack(sources, skipped);
    var payload := sources[SourceNumbered(sources, SECTION_VALUE).value].payload;
    var bytes := EncTable(s, table, items, total, storage);
    assert payload == bytes + payload[|bytes|..];
    AtSplit(EncSources(sources, skipped), SweptIn(sources, skipped).value.start, bytes, payload[|bytes|..]);
  }

  /** One decode of the file's value section gives the table's parameters and the columns of any placed traces. */
  lemma TableReadsBack(sources: seq<Source>, skipped: Skipped, s: Setup, items: seq<Item>, table: Table, total: nat,
                       storage: Storage, filter: seq<TypeRef>)
    requires HoldsTable(sources, skipped, s, items, table, total, storage)
    requires Selects(s, TracesOf(sources).value, filter) && ReadableIn(s, filter, total, storage)
    ensures SweptIn(sources, skipped).Some?
    ensures DecodeSelected(Contents(sources, skipped), SweptIn(sources, skipped).value, EncSources(sources, skipped),
                           filter)
         == Ok(State(Meanings(table.params, s.paramBody), TableColumns(s.types, filter, table),
                     SweptIn(sources, skipped).value.start + |EncTable(s, table, items, total, storage)|))
  {
    hide At, Typed, LegalWindows, Writable, Selects, SweptIn, EncSources, OpenFile, LayoutIn, DecodeWindowed,
         DecodeSimple, WindowedSetup, PointSetup, ViewOf, Laid, EncWindows, EncPoints, Meanings, TableColumns, FindIn,
         HeaderOf, TracesOf, TypesOf, SweepsOf, UnsweptIn, DistinctSlots, Leaves, Windowed, IsSetup, LastNumber;
    PayloadRead(sources, skipped, s, items, table, total, storage);
    FileIsLaid(sources, skipped, s, items, table, total, storage);
    RunOfFile(sources, skipped, s, items, table, total, storage);
    var buf, values := EncSources(sources, skipped), SweptIn(sources, skipped).value;
    var view := ViewOf(Contents(sources, skipped), values);
    var traces := TracesOf(sources).value;
    match storage
    case InWindows(windows) =>
      WindowedTableRoundTrip(view, s, traces, items, table, total, windows, filter, buf, values.start);
    case ByPoint =>
      SimpleTableRoundTrip(view, s, traces, items, table, total, filter, buf, values.start);
  }

  /** End to end: in a file that holds a table, every placed trace that its name leads to is returned as its
      column of the table, and the sweep parameter as the parameter column. */
  lemma SignalsReadBack(sources: seq<Source>, skipped: Skipped, s: Setup, items: seq<Item>, table: Table, total: nat,
                        storage: Storage, trace: TypeRef)
    requires HoldsTable(sources, skipped, s, items, table, total, storage)
    requires trace in Placed(s.types, TracesOf(sources).value, s.window) && ReadableIn(s, [trace], total, storage)
    requires TraceByName(TracesOf(sources).value, trace.name) == Ok(trace)
    ensures OpenFile(EncSources(sources, skipped)) == Ok(Contents(sources, skipped))
    ensures trace.id in table.cols
    ensures Signal(Contents(sources, skipped), EncSources(sources, skipped), trace.name)
         == Ok(Some(Meanings(table.cols[trace.id], BodyOf(s.types, trace))))
    ensures ParamValues(Contents(sources, skipped), EncSources(sources, skipped))
         == Ok(Some(Meanings(table.params, s.paramBody)))
  {
    hide At, LegalWindows, Writable, SweptIn, EncSources, OpenFile, LayoutIn, DecodeSelected, IsSetup,
         EncTable, Meanings, FindIn, HeaderOf, TracesOf, TypesOf, SweepsOf, UnsweptIn, DistinctSlots, Leaves, Placed,
         TraceByName, ColumnTyped;
    PayloadRead(sources, skipped, s, items, table, total, storage);
    TableReadsBack(sources, skipped, s, items, table, total, storage, [trace]);
    assert ReadableIn(s, [], total, storage) by { ReadableForNone(s, [trace], total, storage); }
    TableReadsBack(sources, skipped, s, items, table, total, storage, []);
  }

  lemma ReadableForNone(s: Setup, filter: seq<TypeRef>, total: nat, storage: Storage)
    requires ReadableIn(s, filter, total, storage)
    ensures ReadableIn(s, [], total, storage)
  {
    hide NestedComplex, Readable;
    if storage.InWindows? {
      forall k | 0 <= k < |storage.windows| ensures ReadableRuns(s, [], storage.windows[k].n) {
        assert ReadableRuns(s, filter, storage.windows[k].n);
      }
    }
  }

  /** In a file of distinctly named traces, every listed trace outside later groups is read back by name, unless a
      group of its name hides it. */
  lemma ListedSignalsReadBack(sources: seq<Source>, skipped: Skipped, s: Setup, items: seq<Item>, table: Table,
                              total: nat, storage: Storage, j: nat, k: nat)
    requires HoldsTable(sources, skipped, s, items, table, total, storage)
    requires var traces := TracesOf(sources).value;
             && NamedApart(traces) && j < |traces| && k < |LeavesOf(traces[j])| && !Shadowed(traces, j, k)
             && (traces[j].RefChunk? || FirstGroup(traces) == Some(j))
             && LeavesOf(traces[j])[k] in Placed(s.types, traces, s.window)
             && ReadableIn(s, [LeavesOf(traces[j])[k]], total, storage)
    ensures var trace := LeavesOf(TracesOf(sources).value[j])[k];
            && trace.id in table.cols
            && Signal(Contents(sources, skipped), EncSources(sources, skipped), trace.name)
               == Ok(Some(Meanings(table.cols[trace.id], BodyOf(s.types, trace))))
  {
    hide HoldsTable, NamedApart, Shadowed, Placed, TraceByName, Signal, Contents, EncSources, Meanings;
    assert TracesOf(sources).Some? by { TracesPresent(sources, skipped, s, items, table, total, storage); }
    var traces := TracesOf(sources).value;
    LeafLookup(traces, j, k);
    SignalsReadBack(sources, skipped, s, items, table, total, storage, LeavesOf(traces[j])[k]);
  }

  lemma TracesPresent(sources: seq<Source>, skipped: Skipped, s: Setup, items: seq<Item>, table: Table, total: nat,
                      storage: Storage)
    requires HoldsTable(sources, skipped, s, items, table, total, storage)
    ensures TracesOf(sources).Some?
  {
  }

  /** On any file, `get_values(name)` and `get_param_values` are projections of one decode of the value section. */
  lemma SignalsAreProjections(m: FileModel, buf: Bytes, filter: seq<TypeRef>, j: nat)
    requires m.swept.Some? && m.traces.Some? && j < |filter|
    requires DecodeSelected(m, m.swept.value, buf, filter).Ok?
    requires TraceByName(m.traces.value, filter[j].name) == Ok(filter[j])
    ensures var all := DecodeSelected(m, m.swept.value, buf, filter).value;
            && j < |all.cols|
            && Signal(m, buf, filter[j].name) == Ok(Some(all.cols[j]))
            && ParamValues(m, buf) == Ok(Some(all.params))
  {
    hide TraceByName, DecodeSelected, Pick;
    SelectedPick(m, m.swept.value, buf, filter, [j]);
    SelectedPick(m, m.swept.value, buf, filter, []);
    assert Pick(filter, [j]) == [filter[j]] && Pick(filter, []) == [];
  }

  lemma SelectedPick(m: FileModel, values: SweptValues, buf: Bytes, filter: seq<TypeRef>, picks: seq<nat>)
    requires Indexes(picks, |filter|) && DecodeSelected(m, values, buf, filter).Ok?
    ensures |DecodeSelected(m, values, buf, filter).value.cols| == |filter|
    ensures DecodeSelected(m, values, buf, Pick(filter, picks))
            == Ok(PickState(DecodeSelected(m, values, buf, filter).value, picks))
  {
    hide DecodeWindowed, DecodeSimple, ViewOf, FindIn, PickState;
    var total := FindInt(m.header, SWEEP_POINTS).value;
    if values.windowed {
      WindowedFilterIndependence(ViewOf(m, values), filter, buf, values.start, total, [], picks);
    } else {
      SimpleFilterIndependence(ViewOf(m, values), filter, buf, values.start, total, [], picks);
    }
  }

  // ---------------------------------------------------------------- unswept values

  lemma {:induction false} DenotedAt(types: TypeTable, children: seq<Chunk<Datum>>)
    ensures |Denoted(types, children)| == |children|
    ensures forall k :: 0 <= k < |children| ==> Denoted(types, children)[k] == Denotes(types, children[k])
    decreases |children|
  {
    hide Denotes;
    if children != [] {
      DenotedAt(types, children[1..]);
    }
  }

  /** In a file of unswept values, a name leads to the value last written under it. */
  lemma {:induction false} ScalarsReadBack(sources: seq<Source>, skipped: Skipped, n: nat, i: nat)
    requires Writable(sources, skipped) && SourceNumbered(sources, SECTION_VALUE) == Some(n)
    requires sources[n].UnsweptSource? && i < |sources[n].values|
    requires forall j :: i < j < |sources[n].values| ==> sources[n].values[j].Name() != sources[n].values[i].Name()
    ensures var c := sources[n].values[i];
            && OpenFile(EncSources(sources, skipped)) == Ok(Contents(sources, skipped))
            && c.ValueChunk? && c.typeId in FileTypes(sources)
            && ScalarNamed(Contents(sources, skipped), c.valueName)
               == Ok(Meaning(c.value, FileTypes(sources)[c.typeId].body))
  {
    hide EncSources, OpenFile, Writable, HeaderOf, TypesOf, SweepsOf, TracesOf, SweptIn, FileTypes, Meaning, ChildNamed;
    FileIsReadBack(sources, skipped);
    WritableShape(sources, skipped);
    var types, values := FileTypes(sources), sources[n].values;
    assert EncodableChunk(ValueKind, types, values[i]);
    DenotedAt(types, values);
    NamesKept(types, values);
    NameIndexAgrees(Denoted(types, values), values[i].Name());
  }

  lemma {:induction false} NamesKept(types: TypeTable, children: seq<Chunk<Datum>>)
    ensures |Denoted(types, children)| == |children|
    ensures forall k :: 0 <= k < |children| ==> Denoted(types, children)[k].Name() == children[k].Name()
  {
    DenotedAt(types, children);
  }

  // ---------------------------------------------------------------- names

  function RefNames(refs: seq<TypeRef>): seq<Bytes> {
    if refs == [] then [] else [refs[0].name] + RefNames(refs[1..])
  }

  /** The names of written traces: of a trace its own, of a group those of its members in its place. */
  function WrittenNames(traces: seq<Chunk<Datum>>): seq<Bytes> {
    if traces == [] then []
    else
      (match traces[0]
       case RefChunk(ref) => [ref.name]
       case GroupChunk(group) => RefNames(group.members)
       case _ => [])
      + WrittenNames(traces[1..])
  }

  function ValueNames(values: seq<Chunk<Datum>>): seq<Bytes> {
    if values == [] then [] else [values[0].Name()] + ValueNames(values[1..])
  }

  lemma {:induction false} MemberNamesWritten(refs: seq<TypeRef>)
    ensures MemberNames(refs) == RefNames(refs)
    decreases |refs|
  {
    if refs != [] {
      MemberNamesWritten(refs[1..]);
      assert MemberNames(refs) == [refs[0].name] + MemberNames(refs[1..]);
    }
  }

  lemma {:induction false} TraceNamesWritten(types: TypeTable, traces: seq<Chunk<Datum>>)
    ensures TraceNames(Denoted(types, traces)) == WrittenNames(traces)
    decreases |traces|
  {
    hide RefNames;
    if traces != [] {
      TraceNamesWritten(types, traces[1..]);
      var first, rest := LeavesOf(Denotes(types, traces[0])), Leaves(Denoted(types, traces[1..]));
      MemberNamesWritten(first);
      assert MemberNames(first + rest) == MemberNames(first) + MemberNames(rest);
      if traces[0].RefChunk? {
        assert MemberNames(first) == [traces[0].ref.name];
      }
    }
  }

  lemma {:induction false} ValueNamesWritten(types: TypeTable, values: seq<Chunk<Datum>>)
    ensures Names(Denoted(types, values)) == ValueNames(values)
    decreases |values|
  {
    if values != [] {
      ValueNamesWritten(types, values[1..]);
      var first, rest := Denotes(types, values[0]), Denoted(types, values[1..]);
      assert Names([first] + rest) == [first.Name()] + Names(rest);
    }
  }

  /** The names a file lists are those of its written traces, or of its written unswept values if it has none. */
  lemma {:induction false} NamesListed(sources: seq<Source>, skipped: Skipped)
    ensures SignalNames(Contents(sources, skipped))
         == match SourceNumbered(sources, SECTION_TRACE)
            case Some(k) => Ok(WrittenNames(sources[k].traces))
            case None =>
              match SourceNumbered(sources, SECTION_VALUE)
              case Some(k) =>
                if sources[k].UnsweptSource? then Ok(ValueNames(sources[k].values)) else Err(Undefined)
              case None => Err(Undefined)
  {
    hide SourceNumbered, Denoted, HeaderOf, TypesOf, SweepsOf, SweptIn, TypeTableOf, TraceNames, Names;
    if SourceNumbered(sources, SECTION_TRACE).Some? {
      TraceNamesWritten(map[], sources[SourceNumbered(sources, SECTION_TRACE).value].traces);
    } else if SourceNumbered(sources, SECTION_VALUE).Some? {
      var k := SourceNumbered(sources, SECTION_VALUE).value;
      if sources[k].UnsweptSource? {
        ValueNamesWritten(FileTypes(sources), sources[k].values);
      }
    }
  }

  /** A file without a sweep section has no signals and no parameter, and one with a sweep section no single values. */
  lemma {:induction false} NothingSwept(sources: seq<Source>, skipped: Skipped, name: Bytes)
    requires Writable(sources, skipped)
    ensures SourceNumbered(sources, SECTION_SWEEP).None? ==>
              && Signal(Contents(sources, skipped), EncSources(sources, skipped), name) == Ok(None)
              && ParamValues(Contents(sources, skipped), EncSources(sources, skipped)) == Ok(None)
    ensures SourceNumbered(sources, SECTION_SWEEP).Some? ==>
              ScalarNamed(Contents(sources, skipped), name) == Err(Undefined)
  {
    hide EncSources, SourceNumbered, HeaderOf, TypesOf, SweepsOf, TracesOf, TraceByName, DecodeSelected, ChildNamed,
         Shaped, LayoutIn, PositionOf;
    WritableShape(sources, skipped);
    if SourceNumbered(sources, SECTION_VALUE).Some? {
      ValueConditions(sources, skipped);
    }
  }

  // ---------------------------------------------------------------- types

  /** The definition under an identifier is the last one written with it. */
  lemma {:induction false} DefinitionsWritten(defs: seq<TypeDef>, id: int)
    ensures var types := TypeTableOf(Some(TypeChunks(defs)));
            && (id in types <==> exists k :: 0 <= k < |defs| && defs[k].id == id)
            && forall k :: 0 <= k < |defs| && defs[k].id == id && (forall j :: k < j < |defs| ==> defs[j].id != id) ==>
                 id in types && types[id] == defs[k]
    decreases |defs|
  {
    DefinitionChunks(defs);
    var chunks := TypeChunks<Value>(defs);
    IdIndexAgrees(chunks, id);
    hide IdMap, TypeChunks, FirstIndexOf, LastIndexOf, Once;
    if id in IdMap(chunks) {
      var i :| 0 <= i < |chunks| && chunks[i].Id() == id;
      LastDefinition(defs, id, i);
    }
  }

  lemma {:induction false} DefinitionChunks(defs: seq<TypeDef>)
    ensures |TypeChunks<Value>(defs)| == |defs|
    ensures forall k :: 0 <= k < |defs| ==> TypeChunks<Value>(defs)[k] == TypeChunk(defs[k])
    decreases |defs|
  {
    if defs != [] {
      DefinitionChunks(defs[1..]);
    }
  }

  lemma {:induction false} LastDefinition(defs: seq<TypeDef>, id: int, i: nat)
    requires i < |defs| && defs[i].id == id
    ensures id in IdMap(TypeChunks<Value>(defs)) && IdMap(TypeChunks<Value>(defs))[id].TypeChunk?
    decreases |defs| - i
  {
    DefinitionChunks(defs);
    if j: nat :| i < j < |defs| && defs[j].id == id {
      LastDefinition(defs, id, j);
    } else {
      IdIndexAgrees(TypeChunks<Value>(defs), id);
    }
  }
}
