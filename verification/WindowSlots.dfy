/** The shape of a window: one slot per group member, in the order of the trace names. */
module WindowSlots {
  import opened Base
  import opened Words
  import opened Keys
  import opened Properties
  import opened Types
  import opened Values
  import opened Chunks
  import opened Containers
  import opened Traces
  import opened Offsets
  import opened Sweeps
  import opened Legibility
  import opened Runs
  import opened SweepTables

  function SlotsOf(leaves: seq<TypeRef>, windowSize: int): seq<Item> {
    seq(|leaves|, i requires 0 <= i < |leaves| => Slot(leaves[i].id, windowSize))
  }

  /** A window can be laid out exactly when the trace section holds nothing but groups. */
  lemma {:induction false} WindowLayout(types: TypeTable, traces: Children, windowSize: int)
    requires windowSize != 0
    ensures Layout(types, traces, Some(windowSize)).Ok? <==> forall c :: c in traces ==> c.GroupChunk?
    ensures Layout(types, traces, Some(windowSize)).Ok? ==>
              Layout(types, traces, Some(windowSize)).value == SlotsOf(Leaves(traces), windowSize)
    decreases |traces|
  {
    if traces != [] {
      WindowLayout(types, traces[1..], windowSize);
      if traces[0].GroupChunk? {
        MembersFit(types, traces[0].group.members, windowSize);
        assert SlotsOf(Leaves(traces), windowSize)
            == SlotsOf(LeavesOf(traces[0]), windowSize) + SlotsOf(Leaves(traces[1..]), windowSize);
      }
      assert forall c :: c in traces <==> c == traces[0] || c in traces[1..];
    }
  }

  lemma {:induction false} MembersFit(types: TypeTable, members: seq<TypeRef>, windowSize: int)
    requires windowSize != 0
    ensures MemberItems(types, members, windowSize) == Ok(SlotsOf(members, windowSize))
    decreases |members|
  {
    if members == [] {
      assert SlotsOf(members, windowSize) == [];
    } else {
      MembersFit(types, members[1..], windowSize);
      assert SlotsOf(members, windowSize) == [Slot(members[0].id, windowSize)] + SlotsOf(members[1..], windowSize);
    }
  }

  lemma {:induction false} UniformTotal(leaves: seq<TypeRef>, windowSize: int)
    ensures Total(SlotsOf(leaves, windowSize)) == |leaves| * windowSize
    decreases |leaves|
  {
    if leaves != [] {
      var n := |leaves| - 1;
      var items := SlotsOf(leaves, windowSize);
      assert items[..n] == SlotsOf(leaves[..n], windowSize);
      UniformTotal(leaves[..n], windowSize);
      assert |leaves| * windowSize == n * windowSize + windowSize;
    }
  }

  /** The stride of the windowed decoder is right exactly when the header's "PSF traces" counts the group members;
      then a freshly built offset map for traces with distinct identifiers meets what the round trip asks for. */
  lemma {:induction false} WindowedSetupIsLaid(view: FileView, s: Setup, traces: Children)
    requires WindowedSetup(view) == Ok(s) && s.window.value > 0
    requires forall c :: c in traces ==> c.GroupChunk?
    requires Distinct(MemberIds(Leaves(traces)))
    requires view.offsets == AddSlots(map[], SlotsOf(Leaves(traces), s.window.value), 0)
    ensures Laid(s, traces, SlotsOf(Leaves(traces), s.window.value)) <==>
            FindInt(view.header, TRACES) == Ok(|Leaves(traces)|)
  {
    hide Total, AddSlots, FindIn, LookupType, Laid, Distinct;
    SlotsLaid(s, traces);
    SameProduct(FindInt(view.header, TRACES).value, |Leaves(traces)|, s.window.value);
  }

  /** A section of groups is laid out in slots for a stride of as many slots as there are members. */
  lemma {:induction false} SlotsLaid(s: Setup, traces: Children)
    requires s.window.Some? && s.window.value > 0
    requires (forall c :: c in traces ==> c.GroupChunk?) && Distinct(MemberIds(Leaves(traces)))
    requires s.offsets == AddSlots(map[], SlotsOf(Leaves(traces), s.window.value), 0)
    ensures Laid(s, traces, SlotsOf(Leaves(traces), s.window.value)) <==>
            s.advance == |Leaves(traces)| * s.window.value
  {
    hide Total, AddSlots;
    var windowSize, leaves := s.window.value, Leaves(traces);
    var items := SlotsOf(leaves, windowSize);
    assert s.window == Some(windowSize);
    WindowLayout(s.types, traces, windowSize);
    UniformTotal(leaves, windowSize);
    forall j, k | 0 <= j < |items| && 0 <= k < |items| && items[j].id == items[k].id ensures j == k {
      assert MemberIds(leaves)[j] == MemberIds(leaves)[k];
    }
  }

  lemma SameProduct(a: int, b: int, c: int)
    requires c > 0
    ensures a * c == b * c <==> a == b
  {
  }

  /** The slot of the i-th listed name starts at i windows sizes. The values of a window, right-aligned, end with
      their slot, and they stay inside it, clear of every other trace's slot, exactly when they fit it. */
  lemma {:induction false} SlotContainment(s: Setup, traces: Children, base: int, n: nat, i: nat)
    requires s.window.Some? && s.window.value > 0
    requires Laid(s, traces, SlotsOf(Leaves(traces), s.window.value)) && i < |Leaves(traces)|
    requires Leaves(traces)[i].typeId in s.types
    ensures TraceNames(traces)[i] == Leaves(traces)[i].name
    ensures Leaves(traces)[i].id in s.offsets && s.offsets[Leaves(traces)[i].id] == i * s.window.value
    ensures var ref := Leaves(traces)[i];
            var start := SlotStart(s, ref, base, n);
            && start.Ok?
            && start.value.1 + n * DataSize(BodyOf(s.types, ref)) == base + (i + 1) * s.window.value
            && (start.value.1 >= base + i * s.window.value <==> n * DataSize(BodyOf(s.types, ref)) <= s.window.value)
  {
    var windowSize, leaves := s.window.value, Leaves(traces);
    var items := SlotsOf(leaves, windowSize);
    SlotOffset(items, i);
    assert items[..i] == SlotsOf(leaves[..i], windowSize);
    UniformTotal(leaves[..i], windowSize);
    hide Laid, Total, AddSlots, DataSize, Leaves, DistinctSlots;
    assert (i + 1) * windowSize == i * windowSize + windowSize;
  }

  /** With window size 0 the slots of a window are as large as their data: the layout of a point without the
      8 bytes in front of every group. */
  lemma {:induction false} ZeroWindowLayout(types: TypeTable, traces: Children)
    requires forall c :: c in traces ==> c.GroupChunk?
    ensures Layout(types, traces, Some(0)).Ok? <==> Layout(types, traces, None).Ok?
    ensures Layout(types, traces, Some(0)).Ok? ==>
              Total(Layout(types, traces, None).value)
                  == Total(Layout(types, traces, Some(0)).value) + HEADER_SIZE * |traces|
    decreases |traces|
  {
    hide MemberItems, Total;
    if traces == [] {
      assert Total([]) == 0 by { NoItems(); }
    } else {
      var c, rest := traces[0], traces[1..];
      assert c in traces;
      ZeroWindowLayout(types, rest);
      if Layout(types, traces, Some(0)).Ok? {
        var items := MemberItems(types, c.group.members, 0).value;
        TotalConcat(items, Layout(types, rest, Some(0)).value);
        HeadedItems(map[], Header(TAG_GROUP, c.group.id), items, 0);
        TotalConcat([Header(TAG_GROUP, c.group.id)] + items, Layout(types, rest, None).value);
      }
    }
  }

  lemma NoItems()
    ensures Total([]) == 0
  {
  }

  /** On a section of groups both layouts place the same traces. */
  lemma {:induction false} SamePlaced(types: TypeTable, traces: Children, window: Option<int>)
    requires forall c :: c in traces ==> c.GroupChunk?
    ensures Placed(types, traces, window) == Leaves(traces)
    decreases |traces|
  {
    if traces != [] {
      assert traces[0] in traces;
      SamePlaced(types, traces[1..], window);
    }
  }

  /** The two layouts are indistinguishable: one table, written in windows under any legal split or point by point,
      decodes to the same parameters and the same columns for every filter. */
  lemma {:induction false} LayoutsEquivalent(
    windowed: FileView, ws: Setup, windows: seq<Window>, wbuf: Bytes, wp: int,
    simple: FileView, ps: Setup, pitems: seq<Item>, pbuf: Bytes, pp: int,
    traces: Children, table: Table, total: nat, filter: seq<TypeRef>)
    requires WindowedSetup(windowed) == Ok(ws) && ws.window.value > 0
    requires Laid(ws, traces, SlotsOf(Leaves(traces), ws.window.value)) && Typed(ws, traces, table, total)
    requires LegalWindows(ws, traces, 0, total, windows)
    requires At(wbuf, wp, EncWindows(table, SlotsOf(Leaves(traces), ws.window.value), 0, windows))
    requires PointSetup(simple) == Ok(ps) && IsInt32(ps.paramId) && Laid(ps, traces, pitems)
    requires ws.types == ps.types && ws.paramBody == ps.paramBody
    requires At(pbuf, pp, EncPoints(table, pitems, ps.paramId, 0, total))
    requires (forall ref :: ref in filter ==> ref in Leaves(traces)) && ReadableWindows(ws, filter, windows)
    ensures DecodeWindowed(windowed, filter, wbuf, wp, total, []).Ok?
            && DecodeSimple(simple, filter, pbuf, pp, total, [], []).Ok?
    ensures var w, q := DecodeWindowed(windowed, filter, wbuf, wp, total, []).value,
                        DecodeSimple(simple, filter, pbuf, pp, total, [], []).value;
            w.params == q.params && w.cols == q.cols && w.params == Meanings(table.params, ws.paramBody)
  {
    hide At, LegalWindows, DecodeWindowed, DecodeSimple, EncWindows, EncPoints, ColumnTyped, Layout, Total, AddSlots,
         WindowedSetup, PointSetup, DistinctSlots, Placed, Leaves;
    SetupTypes(windowed);
    GroupsOnly(ws, traces);
    SamePlaced(ws.types, traces, ws.window);
    SamePlaced(ps.types, traces, ps.window);
    if total > 0 {
      ReadableOneByOne(ws, ps, traces, total, filter, windows);
    }
    WindowedTableRoundTrip(windowed, ws, traces, SlotsOf(Leaves(traces), ws.window.value), table, total, windows,
                           filter, wbuf, wp);
    SimpleTableRoundTrip(simple, ps, traces, pitems, table, total, filter, pbuf, pp);
  }

  /** What is read back from windows is read back from points. */
  lemma {:induction false} ReadableOneByOne(ws: Setup, ps: Setup, traces: Children, total: nat, filter: seq<TypeRef>,
                                            windows: seq<Window>)
    requires LegalWindows(ws, traces, 0, total, windows) && total > 0 && ReadableWindows(ws, filter, windows)
    requires ws.types == ps.types && ws.paramBody == ps.paramBody
    ensures ReadableRuns(ps, filter, 1)
  {
    hide NestedComplex, Constant, Legible;
    assert ReadableRuns(ws, filter, windows[0].n);
    forall ref | ref in filter ensures Readable(BodyOf(ps.types, ref), 1) {
      assert Readable(BodyOf(ws.types, ref), windows[0].n);
      ReadableAlone(BodyOf(ps.types, ref));
    }
  }

  lemma {:induction false} GroupsOnly(s: Setup, traces: Children)
    requires s.window.Some? && s.window.value > 0 && Laid(s, traces, SlotsOf(Leaves(traces), s.window.value))
    ensures forall c :: c in traces ==> c.GroupChunk?
  {
    WindowLayout(s.types, traces, s.window.value);
  }
}
