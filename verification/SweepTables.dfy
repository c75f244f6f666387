/** Tables of swept values, their two file layouts, and the proof that the decoders invert both. */
module SweepTables {
  import opened Base
  import opened Words
  import opened Properties
  import opened Types
  import opened Values
  import opened Chunks
  import opened Containers
  import opened Traces
  import opened Offsets
  import opened Sweeps
  import opened Runs
  import opened SweepLaws

  /** The parameter column, and the column of each trace by its identifier. */
  datatype Table = Table(params: seq<Datum>, cols: map<int, seq<Datum>>)

  // ---------------------------------------------------------------- traces that have a slot

  function BodyOf(types: TypeTable, ref: TypeRef): TypeBody {
    if ref.typeId in types then types[ref.typeId].body else Int8
  }

  /** The traces of a child that have a slot: a sweep listed among the traces of a point has none. */
  function PlacedOf(types: TypeTable, c: Chunk<Value>, window: Option<int>): seq<TypeRef> {
    if c.RefChunk? && (window.Some? || (c.ref.typeId in types && IsSweepType(types[c.ref.typeId]) == Ok(true))) then []
    else LeavesOf(c)
  }

  function Placed(types: TypeTable, traces: Children, window: Option<int>): seq<TypeRef> {
    if traces == [] then [] else PlacedOf(types, traces[0], window) + Placed(types, traces[1..], window)
  }

  function SlotSize(types: TypeTable, ref: TypeRef, window: Option<int>): int {
    if window.Some? && window.value != 0 then window.value else DataSize(BodyOf(types, ref))
  }

  /** `ref` has a slot of its size among the items. */
  ghost predicate HasSlot(types: TypeTable, ref: TypeRef, window: Option<int>, items: seq<Item>) {
    Slot(ref.id, SlotSize(types, ref, window)) in items
  }

  lemma {:induction false} MemberSlots(types: TypeTable, members: seq<TypeRef>, window: Option<int>)
    requires MemberItems(types, members, if window.Some? then window.value else 0).Ok?
    ensures var items := MemberItems(types, members, if window.Some? then window.value else 0).value;
            |items| == |members| && forall k :: 0 <= k < |items| ==>
                items[k] == Slot(members[k].id, SlotSize(types, members[k], window))
    decreases |members|
  {
    if members != [] {
      MemberSlots(types, members[1..], window);
      assert forall k :: 0 < k < |members| ==> members[k] == members[1..][k - 1];
    }
  }

  /** The slots of a group's members, in the layout `items` after a possible header. */
  lemma SlotsOfGroup(types: TypeTable, members: seq<TypeRef>, window: Option<int>, items: seq<Item>, h: nat)
    requires MemberItems(types, members, if window.Some? then window.value else 0).Ok?
    requires h <= |items| && items[h..] == MemberItems(types, members, if window.Some? then window.value else 0).value
    ensures forall ref :: ref in members ==> HasSlot(types, ref, window, items)
    ensures forall k :: h <= k < |items| ==>
              exists ref :: ref in members && items[k] == Slot(ref.id, SlotSize(types, ref, window))
  {
    MemberSlots(types, members, window);
    hide MemberItems, SlotSize;
    assert forall k :: 0 <= k < |members| ==> items[h + k] == items[h..][k];
    forall ref | ref in members ensures HasSlot(types, ref, window, items) {
      var k :| 0 <= k < |members| && members[k] == ref;
      assert items[h + k] == Slot(ref.id, SlotSize(types, ref, window));
    }
    forall k | h <= k < |items|
      ensures exists ref :: ref in members && items[k] == Slot(ref.id, SlotSize(types, ref, window))
    {
      assert items[k] == items[h..][k - h];
      assert members[k - h] in members;
    }
  }

  /** The slots of a child are exactly those of its placed traces. */
  lemma SlotsOfChild(types: TypeTable, c: Chunk<Value>, window: Option<int>)
    requires LayoutOf(types, c, window).Ok?
    ensures var items := LayoutOf(types, c, window).value;
            && (forall ref :: ref in PlacedOf(types, c, window) ==> HasSlot(types, ref, window, items))
            && (forall k :: 0 <= k < |items| && items[k].Slot? ==>
                  exists ref :: ref in PlacedOf(types, c, window)
                      && items[k] == Slot(ref.id, SlotSize(types, ref, window)))
  {
    hide MemberItems, FindIn;
    if c.GroupChunk? {
      var items := LayoutOf(types, c, window).value;
      SlotsOfGroup(types, c.group.members, window, items, if window.Some? then 0 else 1);
    }
  }

  /** The slots of a layout are exactly those of the placed traces. */
  lemma {:induction false} SlotsOfLayout(types: TypeTable, traces: Children, window: Option<int>)
    requires Layout(types, traces, window).Ok?
    ensures var items := Layout(types, traces, window).value;
            && (forall ref :: ref in Placed(types, traces, window) ==> HasSlot(types, ref, window, items))
            && (forall k :: 0 <= k < |items| && items[k].Slot? ==>
                  exists ref :: ref in Placed(types, traces, window)
                      && items[k] == Slot(ref.id, SlotSize(types, ref, window)))
    decreases |traces|
  {
    hide LayoutOf, PlacedOf, SlotSize;
    if traces != [] {
      SlotsOfChild(types, traces[0], window);
      SlotsOfLayout(types, traces[1..], window);
      var first, rest := LayoutOf(types, traces[0], window).value, Layout(types, traces[1..], window).value;
      var items := first + rest;
      forall k | 0 <= k < |items| && items[k].Slot?
        ensures exists ref ::
                  ref in Placed(types, traces, window) && items[k] == Slot(ref.id, SlotSize(types, ref, window))
      {
        if k < |first| {
          assert items[k] == first[k];
          var ref :| ref in PlacedOf(types, traces[0], window)
              && first[k] == Slot(ref.id, SlotSize(types, ref, window));
          assert ref in Placed(types, traces, window);
        } else {
          assert items[k] == rest[k - |first|];
          var ref :| ref in Placed(types, traces[1..], window)
              && rest[k - |first|] == Slot(ref.id, SlotSize(types, ref, window));
          assert ref in Placed(types, traces, window);
        }
      }
    }
  }

  /** Slots are never negative, unless a negative window size makes them so. */
  lemma {:induction false} SlotsNonNegative(types: TypeTable, traces: Children, window: Option<int>)
    requires Layout(types, traces, window).Ok? && (window.Some? ==> window.value >= 0)
    ensures NonNegative(Layout(types, traces, window).value)
  {
    hide Layout, Placed;
    SlotsOfLayout(types, traces, window);
    var items := Layout(types, traces, window).value;
    forall k | 0 <= k < |items| ensures items[k].Size() >= 0 {
      if items[k].Slot? {
        var ref :| ref in Placed(types, traces, window) && items[k] == Slot(ref.id, SlotSize(types, ref, window));
      }
    }
  }

  /** The offset map is a packing: the slots of any two placed traces with different identifiers are disjoint, and
      all lie within the size the map was built with. */
  lemma {:induction false} OffsetMapPacks(types: TypeTable, traces: Children, window: Option<int>, a: TypeRef,
                                          b: TypeRef)
    requires Layout(types, traces, window).Ok? && DistinctSlots(Layout(types, traces, window).value)
    requires window.Some? ==> window.value >= 0
    requires a in Placed(types, traces, window) && b in Placed(types, traces, window) && a.id != b.id
    ensures var items := Layout(types, traces, window).value;
            var offsets := AddSlots(map[], items, 0);
            && a.id in offsets && b.id in offsets
            && 0 <= offsets[a.id] && offsets[a.id] + SlotSize(types, a, window) <= Total(items)
            && (|| offsets[a.id] + SlotSize(types, a, window) <= offsets[b.id]
                || offsets[b.id] + SlotSize(types, b, window) <= offsets[a.id])
  {
    hide Layout, Placed, SlotSize, AddSlots, Total, DistinctSlots, NonNegative;
    SlotsOfLayout(types, traces, window);
    SlotsNonNegative(types, traces, window);
    var items := Layout(types, traces, window).value;
    assert HasSlot(types, a, window, items) && HasSlot(types, b, window, items);
    var j :| 0 <= j < |items| && items[j] == Slot(a.id, SlotSize(types, a, window));
    var k :| 0 <= k < |items| && items[k] == Slot(b.id, SlotSize(types, b, window));
    Packing(items);
  }

  // ---------------------------------------------------------------- bytes of a point or window

  /** What fills the items of a layout: one point, or a window of `n` points from `i` on with each trace's padding. */
  datatype Filling =
    | PointFilling(point: nat)
    | WindowFilling(i: nat, n: nat, pads: map<int, Bytes>)

  function RunOf(cols: map<int, seq<Datum>>, id: int, i: nat, n: nat): seq<Datum> {
    if id in cols && i + n <= |cols[id]| then cols[id][i..i + n] else []
  }

  /** The values of a trace in a point or window. */
  function DataOf(cols: map<int, seq<Datum>>, f: Filling, id: int): seq<Datum> {
    if f.PointFilling? then RunOf(cols, id, f.point, 1) else RunOf(cols, id, f.i, f.n)
  }

  function PadOf(f: Filling, id: int): Bytes {
    if f.WindowFilling? && id in f.pads then f.pads[id] else []
  }

  /** A header is a tag and an identifier; the values of a window stand at the end of their slot, after any padding. */
  function EncPiece(cols: map<int, seq<Datum>>, f: Filling, item: Item): Bytes {
    match item
    case Header(tag, owner) => EncWord(tag) + EncInt(owner)
    case Slot(id, _) => PadOf(f, id) + EncItems(DataOf(cols, f, id))
  }

  function EncPieces(cols: map<int, seq<Datum>>, f: Filling, items: seq<Item>): Bytes {
    if items == [] then []
    else EncPieces(cols, f, items[..|items| - 1]) + EncPiece(cols, f, items[|items| - 1])
  }

  ghost predicate PiecesFit(cols: map<int, seq<Datum>>, f: Filling, items: seq<Item>) {
    forall k :: 0 <= k < |items| ==> |EncPiece(cols, f, items[k])| == items[k].Size()
  }

  lemma {:induction false} PieceAt(cols: map<int, seq<Datum>>, f: Filling, items: seq<Item>, buf: Bytes, base: int,
                                   k: nat)
    requires PiecesFit(cols, f, items) && At(buf, base, EncPieces(cols, f, items)) && k < |items|
    ensures At(buf, base + OffsetAt(items, k), EncPiece(cols, f, items[k]))
    decreases |items|
  {
    hide At, EncPiece;
    var front, last := items[..|items| - 1], items[|items| - 1];
    AtSplit(buf, base, EncPieces(cols, f, front), EncPiece(cols, f, last));
    assert PiecesFit(cols, f, front);
    PiecesSize(cols, f, front);
    if k < |front| {
      PieceAt(cols, f, front, buf, base, k);
      assert front[..k] == items[..k];
    }
  }

  lemma {:induction false} PiecesSize(cols: map<int, seq<Datum>>, f: Filling, items: seq<Item>)
    requires PiecesFit(cols, f, items)
    ensures |EncPieces(cols, f, items)| == Total(items)
  {
    hide EncPiece;
    if items != [] {
      assert PiecesFit(cols, f, items[..|items| - 1]);
      PiecesSize(cols, f, items[..|items| - 1]);
    }
  }

  // ---------------------------------------------------------------- decoding a run

  /** The column of a trace is decoded correctly up to `i`. */
  ghost predicate FilledUpTo(col: Cells, data: seq<Datum>, body: TypeBody, i: nat) {
    |col| == |data| && i <= |data| && col[..i] == Meanings(data, body)[..i]
  }

  lemma FillFurther(col: Cells, data: seq<Datum>, body: TypeBody, i: nat, n: nat)
    requires FilledUpTo(col, data, body, i) && i + n <= |data|
    ensures FilledUpTo(col[..i] + Meanings(data[i..i + n], body) + col[i + n..], data, body, i + n)
  {
    hide Meaning;
    var more := Meanings(data[i..i + n], body);
    assert more == Meanings(data, body)[i..i + n];
    assert (col[..i] + more + col[i + n..])[..i + n] == Meanings(data, body)[..i] + more;
  }

  lemma FillColumnAt(s: Setup, ref: TypeRef, buf: Bytes, base: int, i: nat, n: nat, col: Cells, data: seq<Datum>,
                     q: int)
    requires ref.typeId in s.types && ColumnTyped(data, BodyOf(s.types, ref), |data|)
             && Readable(BodyOf(s.types, ref), n)
    requires FilledUpTo(col, data, BodyOf(s.types, ref), i) && i + n <= |data|
    requires SlotStart(s, ref, base, n) == Ok((BodyOf(s.types, ref), q)) && At(buf, q, EncItems(data[i..i + n]))
    ensures FillColumn(s, ref, buf, base, i, n, col).Ok?
    ensures FilledUpTo(FillColumn(s, ref, buf, base, i, n, col).value, data, BodyOf(s.types, ref), i + n)
  {
    hide At, SlotStart, ColumnTyped, DecodeInto, FilledUpTo, Readable;
    TypedSlice(data, BodyOf(s.types, ref), |data|, i, n);
    var body := BodyOf(s.types, ref);
    ReadableRunAt(data[i..i + n], body, buf, q, col, i) by {
      assert |col| == |data| by { FilledLength(col, data, body, i); }
    }
    FillFurther(col, data, body, i, n);
  }

  lemma FilledLength(col: Cells, data: seq<Datum>, body: TypeBody, i: nat)
    requires FilledUpTo(col, data, body, i)
    ensures |col| == |data|
  {
  }

  // ---------------------------------------------------------------- tables in a layout

  /** A decoding run whose offset map was built for the layout `items` of the trace section. */
  ghost predicate Laid(s: Setup, traces: Children, items: seq<Item>) {
    && Layout(s.types, traces, s.window) == Ok(items) && DistinctSlots(items)
    && s.offsets == AddSlots(map[], items, 0) && s.advance == Total(items)
    && (s.window.Some? ==> s.window.value > 0)
  }

  /** The table has `n` rows and a column of the right type for every placed trace. */
  ghost predicate Typed(s: Setup, traces: Children, table: Table, n: nat) {
    && ColumnTyped(table.params, s.paramBody, n)
    && forall ref :: ref in Placed(s.types, traces, s.window) ==>
         ref.typeId in s.types && ref.id in table.cols && ColumnTyped(table.cols[ref.id], BodyOf(s.types, ref), n)
  }

  ghost predicate Selects(s: Setup, traces: Children, filter: seq<TypeRef>) {
    forall ref :: ref in filter ==> ref in Placed(s.types, traces, s.window)
  }

  /** A point or window of `n` points is read back for a filter: the parameter takes the bytes it is expected to
      take, and `n` values of every selected trace are readable. */
  ghost predicate ReadableRuns(s: Setup, filter: seq<TypeRef>, n: nat) {
    NestedComplex(s.paramBody) == 0 && forall ref :: ref in filter ==> Readable(BodyOf(s.types, ref), n)
  }

  function First(f: Filling): nat {
    if f.PointFilling? then f.point else f.i
  }

  function Count(f: Filling): nat {
    if f.PointFilling? then 1 else f.n
  }

  /** The rows of the filling exist, and in a window every trace's padding and values fill its slot. */
  ghost predicate Fits(s: Setup, traces: Children, f: Filling, n: nat) {
    && First(f) + Count(f) <= n
    && (f.WindowFilling? <==> s.window.Some?)
    && (f.WindowFilling? ==>
          forall ref :: ref in Placed(s.types, traces, s.window) ==>
            |PadOf(f, ref.id)| + f.n * DataSize(BodyOf(s.types, ref)) == s.window.value)
  }

  /** The bytes of a placed trace in its slot. */
  lemma {:induction false} PieceOfTrace(s: Setup, traces: Children, table: Table, n: nat, f: Filling, ref: TypeRef)
    requires Typed(s, traces, table, n) && Fits(s, traces, f, n) && ref in Placed(s.types, traces, s.window)
    requires s.window.Some? ==> s.window.value > 0
    ensures var item := Slot(ref.id, SlotSize(s.types, ref, s.window));
            var data := table.cols[ref.id][First(f)..First(f) + Count(f)];
            && |EncPiece(table.cols, f, item)| == item.Size()
            && |EncItems(data)| == Count(f) * DataSize(BodyOf(s.types, ref))
            && EncPiece(table.cols, f, item) == PadOf(f, ref.id) + EncItems(data)
            && |PadOf(f, ref.id)| == if s.window.Some? then s.window.value - |EncItems(data)| else 0
  {
    hide Placed, HasType, NestedComplex, EncItems;
    var data := table.cols[ref.id][First(f)..First(f) + Count(f)];
    assert DataOf(table.cols, f, ref.id) == data;
    RunSize(data, BodyOf(s.types, ref));
  }

  lemma TablePiecesFit(s: Setup, traces: Children, items: seq<Item>, table: Table, n: nat, f: Filling)
    requires Laid(s, traces, items) && Typed(s, traces, table, n) && Fits(s, traces, f, n)
    ensures PiecesFit(table.cols, f, items)
  {
    SlotsOfLayout(s.types, traces, s.window);
    hide Typed, Fits, SlotSize, Layout, Placed, AddSlots, Total;
    forall k | 0 <= k < |items| ensures |EncPiece(table.cols, f, items[k])| == items[k].Size() {
      if items[k].Slot? {
        var ref :| ref in Placed(s.types, traces, s.window)
            && items[k] == Slot(ref.id, SlotSize(s.types, ref, s.window));
        PieceOfTrace(s, traces, table, n, f, ref);
      }
    }
  }

  /** The offset map leads to the slot of a placed trace. */
  lemma SlotOfTrace(s: Setup, traces: Children, items: seq<Item>, ref: TypeRef) returns (k: nat)
    requires Laid(s, traces, items) && ref in Placed(s.types, traces, s.window)
    ensures k < |items| && items[k] == Slot(ref.id, SlotSize(s.types, ref, s.window))
    ensures ref.id in s.offsets && s.offsets[ref.id] == OffsetAt(items, k)
  {
    SlotsOfLayout(s.types, traces, s.window);
    hide Layout, Placed, SlotSize, AddSlots, OffsetAt, DistinctSlots;
    assert HasSlot(s.types, ref, s.window, items);
    k :| 0 <= k < |items| && items[k] == Slot(ref.id, SlotSize(s.types, ref, s.window));
    SlotOffset(items, k);
  }

  /** The decoder's pointer for a selected trace lands on the first byte of its values. */
  lemma TraceDataAt(s: Setup, traces: Children, items: seq<Item>, table: Table, n: nat, f: Filling, ref: TypeRef,
                    buf: Bytes, base: int) returns (q: int)
    requires Laid(s, traces, items) && Typed(s, traces, table, n) && Fits(s, traces, f, n)
    requires ref in Placed(s.types, traces, s.window) && At(buf, base, EncPieces(table.cols, f, items))
    ensures SlotStart(s, ref, base, Count(f)) == Ok((BodyOf(s.types, ref), q))
    ensures ref.id in table.cols && |table.cols[ref.id]| == n
    ensures At(buf, q, EncItems(table.cols[ref.id][First(f)..First(f) + Count(f)]))
  {
    hide At, Layout, Placed, AddSlots, Total, OffsetAt, EncPiece, EncPieces, EncItems, DistinctSlots, SlotSize,
         HasType, NestedComplex, DataSize, PiecesFit;
    TablePiecesFit(s, traces, items, table, n, f);
    PieceOfTrace(s, traces, table, n, f, ref);
    var k := SlotOfTrace(s, traces, items, ref);
    PieceAt(table.cols, f, items, buf, base, k);
    var slot := base + OffsetAt(items, k);
    var data := EncItems(table.cols[ref.id][First(f)..First(f) + Count(f)]);
    AtSplit(buf, slot, PadOf(f, ref.id), data);
    q := slot + |PadOf(f, ref.id)|;
  }

  ghost predicate AllFilledUpTo(s: Setup, filter: seq<TypeRef>, table: Table, cols: seq<Cells>, i: nat) {
    && |cols| == |filter|
    && forall j :: 0 <= j < |filter| ==>
         && filter[j].id in table.cols
         && FilledUpTo(cols[j], table.cols[filter[j].id], BodyOf(s.types, filter[j]), i)
  }

  /** Decoding a point or window extends every selected column by its rows. */
  lemma {:induction false} FillColumnsAt(s: Setup, traces: Children, items: seq<Item>, table: Table, n: nat, f: Filling,
                                         filter: seq<TypeRef>, buf: Bytes, base: int, cols: seq<Cells>)
    requires Laid(s, traces, items) && Typed(s, traces, table, n) && Fits(s, traces, f, n) && Selects(s, traces, filter)
    requires ReadableRuns(s, filter, Count(f))
    requires At(buf, base, EncPieces(table.cols, f, items)) && AllFilledUpTo(s, filter, table, cols, First(f))
    ensures FillColumns(s, filter, buf, base, First(f), Count(f), cols).Ok?
    ensures AllFilledUpTo(s, filter, table, FillColumns(s, filter, buf, base, First(f), Count(f), cols).value,
                          First(f) + Count(f))
  {
    hide At, Laid, FilledUpTo, FillColumn, FillColumns, SlotStart, EncPieces, Placed, ColumnTyped, EncItems, Readable;
    forall j | 0 <= j < |filter|
      ensures FillColumn(s, filter[j], buf, base, First(f), Count(f), cols[j]).Ok?
      ensures FilledUpTo(FillColumn(s, filter[j], buf, base, First(f), Count(f), cols[j]).value,
                         table.cols[filter[j].id], BodyOf(s.types, filter[j]), First(f) + Count(f))
    {
      var ref := filter[j];
      assert ref in filter;
      var q := TraceDataAt(s, traces, items, table, n, f, ref, buf, base);
      FillColumnAt(s, ref, buf, base, First(f), Count(f), cols[j], table.cols[ref.id], q);
    }
    FillColumnsEach(s, filter, buf, base, First(f), Count(f), cols);
  }

  // ---------------------------------------------------------------- windows

  /** A window: the number of points it holds, the high half of its second word, and the padding of
      every trace. */
  datatype Window = Window(n: nat, left: nat, pads: map<int, Bytes>)

  function EncWindow(table: Table, items: seq<Item>, i: nat, w: Window): Bytes {
    EncWord(TAG_SWEEP_VALUE) + (EncWord(w.left * 65536 + w.n)
      + (EncItems(if i + w.n <= |table.params| then table.params[i..i + w.n] else [])
         + EncPieces(table.cols, WindowFilling(i, w.n, w.pads), items)))
  }

  /** The windows of the points from `i` on. */
  function EncWindows(table: Table, items: seq<Item>, i: nat, windows: seq<Window>): Bytes
    decreases |windows|
  {
    if windows == [] then []
    else EncWindow(table, items, i, windows[0]) + EncWindows(table, items, i + windows[0].n, windows[1..])
  }

  /** Non-empty windows that cover the points from `i` to `n`; the slots are filled. */
  ghost predicate LegalWindows(s: Setup, traces: Children, i: nat, n: nat, windows: seq<Window>)
    decreases |windows|
  {
    if windows == [] then i == n
    else
      var w := windows[0];
      && 1 <= w.n < 65536 && w.left < 65536
      && Fits(s, traces, WindowFilling(i, w.n, w.pads), n)
      && LegalWindows(s, traces, i + w.n, n, windows[1..])
  }

  lemma CountAt(buf: Bytes, p: int, left: nat, n: nat)
    requires left < 65536 && n < 65536 && At(buf, p, EncWord(left * 65536 + n))
    ensures GetInt(buf, p).Ok? && PointCount(GetInt(buf, p).value) == n
  {
    hide At, EncWord, GetWord;
    WordAt(buf, p, left * 65536 + n);
    LowHalf(left, n);
    LowHalf(left - 65536, n);
  }

  lemma LowHalf(k: int, n: nat)
    requires n < 65536
    ensures (k * 65536 + n) % 65536 == n
  {
  }

  /** The parameter cells after a window's parameters were appended. */
  lemma ParamsAt(buf: Bytes, p: int, data: seq<Datum>, body: TypeBody, i: nat, n: nat, total: nat)
    requires ColumnTyped(data, body, total) && NestedComplex(body) == 0
    requires i + n <= total && At(buf, p, EncItems(data[i..i + n]))
    ensures var grown := Resize(Meanings(data, body)[..i], i + n, InitValue(body)).value;
            DecodeInto(body, buf, p, grown, i, n) == Ok((Meanings(data, body)[..i + n], p + |EncItems(data[i..i + n])|))
  {
    hide At, ColumnTyped, Meanings, DecodeInto;
    TypedSlice(data, body, total, i, n);
    var all := Meanings(data, body);
    var grown := Resize(all[..i], i + n, InitValue(body)).value;
    RunAt(data[i..i + n], body, buf, p, grown, i);
    assert grown[..i] + all[i..i + n] + grown[i + n..] == all[..i + n];
  }

  lemma WindowRoundTrip(s: Setup, traces: Children, items: seq<Item>, table: Table, total: nat, w: Window,
                        filter: seq<TypeRef>, buf: Bytes, i: nat, st: State)
    requires Laid(s, traces, items) && Typed(s, traces, table, total) && Selects(s, traces, filter)
    requires 1 <= w.n < 65536 && w.left < 65536 && Fits(s, traces, WindowFilling(i, w.n, w.pads), total)
    requires ReadableRuns(s, filter, w.n)
    requires At(buf, st.pos, EncWindow(table, items, i, w)) && AllFilledUpTo(s, filter, table, st.cols, i)
    requires i <= total && st.params == Meanings(table.params, s.paramBody)[..i]
    ensures DecodeWindow(s, filter, buf, i, st).Ok?
    ensures var (next, n) := DecodeWindow(s, filter, buf, i, st).value;
            && n == w.n && next.params == Meanings(table.params, s.paramBody)[..i + n]
            && AllFilledUpTo(s, filter, table, next.cols, i + n) && next.pos == st.pos + |EncWindow(table, items, i, w)|
  {
    hide At, GetInt, ParseTag, EncWord, EncItems, EncPieces, Laid, Selects, AllFilledUpTo, DecodeInto, FillColumns,
         Resize, Placed, ColumnTyped, PiecesFit;
    var f := WindowFilling(i, w.n, w.pads);
    ParamLength(s, traces, table, total);
    FillingInside(s, traces, f, total);
    var count, params, pieces := EncWord(w.left * 65536 + w.n), EncItems(table.params[i..i + w.n]),
        EncPieces(table.cols, f, items);
    AtSplit(buf, st.pos, EncWord(TAG_SWEEP_VALUE), count + (params + pieces));
    AtSplit(buf, st.pos + 4, count, params + pieces);
    AtSplit(buf, st.pos + 8, params, pieces);
    TagAt(buf, st.pos, TAG_SWEEP_VALUE);
    CountAt(buf, st.pos + 4, w.left, w.n);
    ParamsAt(buf, st.pos + 8, table.params, s.paramBody, i, w.n, total);
    var base := st.pos + 8 + |params|;
    FillColumnsAt(s, traces, items, table, total, f, filter, buf, base, st.cols);
    TablePiecesFit(s, traces, items, table, total, f);
    PiecesSize(table.cols, f, items);
    AdvanceIsTotal(s, traces, items);
    ColumnsCount(s, filter, table, st.cols, i);
  }

  ghost predicate ReadableWindows(s: Setup, filter: seq<TypeRef>, windows: seq<Window>) {
    forall k :: 0 <= k < |windows| ==> ReadableRuns(s, filter, windows[k].n)
  }

  lemma ParamLength(s: Setup, traces: Children, table: Table, n: nat)
    requires Typed(s, traces, table, n)
    ensures |table.params| == n
  {
  }

  lemma {:induction false} AdvanceIsTotal(s: Setup, traces: Children, items: seq<Item>)
    requires Laid(s, traces, items)
    ensures s.advance == Total(items)
  {
  }

  lemma ColumnsCount(s: Setup, filter: seq<TypeRef>, table: Table, cols: seq<Cells>, i: nat)
    requires AllFilledUpTo(s, filter, table, cols, i)
    ensures |cols| == |filter|
  {
  }

  lemma {:induction false} WindowsRoundTrip(s: Setup, traces: Children, items: seq<Item>, table: Table, total: nat,
                                            windows: seq<Window>, filter: seq<TypeRef>, buf: Bytes, i: nat, st: State)
    requires Laid(s, traces, items) && Typed(s, traces, table, total) && Selects(s, traces, filter)
    requires LegalWindows(s, traces, i, total, windows) && ReadableWindows(s, filter, windows)
    requires At(buf, st.pos, EncWindows(table, items, i, windows)) && AllFilledUpTo(s, filter, table, st.cols, i)
    requires i <= total && st.params == Meanings(table.params, s.paramBody)[..i]
    ensures |st.cols| == |filter| && DecodeWindows(s, filter, buf, i, total, st).Ok?
    ensures var end := DecodeWindows(s, filter, buf, i, total, st).value;
            && end.params == Meanings(table.params, s.paramBody)[..total]
            && AllFilledUpTo(s, filter, table, end.cols, total)
            && end.pos == st.pos + |EncWindows(table, items, i, windows)|
    decreases |windows|
  {
    hide At, Laid, Typed, Selects, Fits, AllFilledUpTo, DecodeWindow, EncWindow;
    ColumnsCount(s, filter, table, st.cols, i);
    if windows != [] {
      var w := windows[0];
      assert i + w.n <= total by { FillingInside(s, traces, WindowFilling(i, w.n, w.pads), total); }
      AtSplit(buf, st.pos, EncWindow(table, items, i, w), EncWindows(table, items, i + w.n, windows[1..]));
      WindowRoundTrip(s, traces, items, table, total, w, filter, buf, i, st);
      var (next, n) := DecodeWindow(s, filter, buf, i, st).value;
      WindowsRoundTrip(s, traces, items, table, total, windows[1..], filter, buf, i + w.n, next);
    }
  }

  lemma FillingInside(s: Setup, traces: Children, f: Filling, n: nat)
    requires Fits(s, traces, f, n)
    ensures First(f) + Count(f) <= n
  {
  }

  // ---------------------------------------------------------------- points

  function EncPoint(table: Table, items: seq<Item>, paramId: int, i: nat): Bytes {
    EncWord(TAG_SWEEP_VALUE) + (EncInt(paramId)
      + (EncItems(if i + 1 <= |table.params| then table.params[i..i + 1] else [])
         + EncPieces(table.cols, PointFilling(i), items)))
  }

  /** The points from `i` to `n`. */
  function EncPoints(table: Table, items: seq<Item>, paramId: int, i: nat, n: nat): Bytes
    decreases n - i
  {
    if i >= n then [] else EncPoint(table, items, paramId, i) + EncPoints(table, items, paramId, i + 1, n)
  }

  /** The parameter cells, allocated in full, after one more of them was written. */
  lemma {:induction false} ParamAt(buf: Bytes, p: int, data: seq<Datum>, body: TypeBody, i: nat, params: Cells)
    requires i < |data| && ColumnTyped(data, body, |data|) && NestedComplex(body) == 0
             && FilledUpTo(params, data, body, i)
    requires At(buf, p, EncItems(data[i..i + 1]))
    ensures DecodeInto(body, buf, p, params, i, 1).Ok?
    ensures var (filled, q) := DecodeInto(body, buf, p, params, i, 1).value;
            q == p + |EncItems(data[i..i + 1])| && FilledUpTo(filled, data, body, i + 1)
  {
    hide At, ColumnTyped, DecodeInto;
    TypedSlice(data, body, |data|, i, 1);
    RunAt(data[i..i + 1], body, buf, p, params, i);
    FillFurther(params, data, body, i, 1);
  }

  lemma PointRoundTrip(s: Setup, traces: Children, items: seq<Item>, table: Table, total: nat, filter: seq<TypeRef>,
                       buf: Bytes, i: nat, st: State)
    requires Laid(s, traces, items) && Typed(s, traces, table, total) && Selects(s, traces, filter)
    requires i < total && s.window.None? && IsInt32(s.paramId) && ReadableRuns(s, filter, 1)
    requires At(buf, st.pos, EncPoint(table, items, s.paramId, i)) && AllFilledUpTo(s, filter, table, st.cols, i)
    requires FilledUpTo(st.params, table.params, s.paramBody, i)
    ensures |st.cols| == |filter| && DecodePoint(s, filter, buf, 0, i, st).Ok?
    ensures var next := DecodePoint(s, filter, buf, 0, i, st).value;
            && FilledUpTo(next.params, table.params, s.paramBody, i + 1)
            && AllFilledUpTo(s, filter, table, next.cols, i + 1)
            && next.pos == st.pos + |EncPoint(table, items, s.paramId, i)|
  {
    hide At, GetInt, ParseTag, EncWord, EncInt, EncItems, EncPieces, Laid, Selects, AllFilledUpTo, FilledUpTo,
         DecodeInto, FillColumns, Placed, ColumnTyped, PiecesFit;
    var f := PointFilling(i);
    ParamLength(s, traces, table, total);
    var id, param, pieces := EncInt(s.paramId), EncItems(table.params[i..i + 1]), EncPieces(table.cols, f, items);
    AtSplit(buf, st.pos, EncWord(TAG_SWEEP_VALUE), id + (param + pieces));
    AtSplit(buf, st.pos + 4, id, param + pieces);
    AtSplit(buf, st.pos + 8, param, pieces);
    TagAt(buf, st.pos, TAG_SWEEP_VALUE);
    IntAt(buf, st.pos + 4, s.paramId);
    ParamAt(buf, st.pos + 8, table.params, s.paramBody, i, st.params);
    var base := st.pos + 8 + |param|;
    ColumnsCount(s, filter, table, st.cols, i);
    FillColumnsAt(s, traces, items, table, total, f, filter, buf, base, st.cols);
    TablePiecesFit(s, traces, items, table, total, f);
    PiecesSize(table.cols, f, items);
    AdvanceIsTotal(s, traces, items);
  }

  lemma {:induction false} PointsRoundTrip(s: Setup, traces: Children, items: seq<Item>, table: Table, total: nat,
                                           filter: seq<TypeRef>, buf: Bytes, i: nat, st: State)
    requires Laid(s, traces, items) && Typed(s, traces, table, total) && Selects(s, traces, filter)
    requires i <= total && s.window.None? && IsInt32(s.paramId) && (total > 0 ==> ReadableRuns(s, filter, 1))
    requires At(buf, st.pos, EncPoints(table, items, s.paramId, i, total))
             && AllFilledUpTo(s, filter, table, st.cols, i)
    requires FilledUpTo(st.params, table.params, s.paramBody, i)
    ensures |st.cols| == |filter| && DecodePoints(s, filter, buf, 0, i, total, st).Ok?
    ensures var end := DecodePoints(s, filter, buf, 0, i, total, st).value;
            && FilledUpTo(end.params, table.params, s.paramBody, total)
            && AllFilledUpTo(s, filter, table, end.cols, total)
            && end.pos == st.pos + |EncPoints(table, items, s.paramId, i, total)|
    decreases total - i
  {
    hide At, Laid, Typed, Selects, FilledUpTo, AllFilledUpTo, DecodePoint, EncPoint;
    ColumnsCount(s, filter, table, st.cols, i);
    if i < total {
      AtSplit(buf, st.pos, EncPoint(table, items, s.paramId, i), EncPoints(table, items, s.paramId, i + 1, total));
      PointRoundTrip(s, traces, items, table, total, filter, buf, i, st);
      PointsRoundTrip(s, traces, items, table, total, filter, buf, i + 1, DecodePoint(s, filter, buf, 0, i, st).value);
    }
  }

  // ---------------------------------------------------------------- whole sections

  /** The columns a table holds for a filter. */
  function TableColumns(types: TypeTable, filter: seq<TypeRef>, table: Table): seq<Cells> {
    seq(|filter|, j requires 0 <= j < |filter| =>
      if filter[j].id in table.cols then Meanings(table.cols[filter[j].id], BodyOf(types, filter[j])) else [])
  }

  lemma {:induction false} NothingFilled(s: Setup, traces: Children, table: Table, total: nat, filter: seq<TypeRef>)
    requires Typed(s, traces, table, total) && Selects(s, traces, filter)
    ensures NewColumns(s.types, filter, total).Ok?
    ensures AllFilledUpTo(s, filter, table, NewColumns(s.types, filter, total).value, 0)
  {
    hide Placed, ColumnTyped;
    NewColumnsEach(s.types, filter, total);
    var cols := NewColumns(s.types, filter, total);
    forall j | 0 <= j < |filter|
      ensures LookupType(s.types, filter[j].typeId).Ok? && filter[j].id in table.cols
              && |table.cols[filter[j].id]| == total
    {
      assert filter[j] in filter;
      TypedColumn(table.cols[filter[j].id], BodyOf(s.types, filter[j]), total);
    }
  }

  lemma TypedColumn(data: seq<Datum>, body: TypeBody, n: nat)
    requires ColumnTyped(data, body, n)
    ensures |data| == n
  {
  }

  lemma AllFilled(s: Setup, traces: Children, table: Table, total: nat, filter: seq<TypeRef>, cols: seq<Cells>)
    requires Typed(s, traces, table, total) && Selects(s, traces, filter)
             && AllFilledUpTo(s, filter, table, cols, total)
    ensures cols == TableColumns(s.types, filter, table)
  {
    hide Placed, ColumnTyped;
    forall j | 0 <= j < |filter| ensures cols[j] == TableColumns(s.types, filter, table)[j] {
      assert filter[j] in filter;
      TypedColumn(table.cols[filter[j].id], BodyOf(s.types, filter[j]), total);
      assert cols[j][..total] == cols[j];
    }
  }

  /** The state holds the table's parameters and its columns for the filter. */
  ghost predicate Holds(st: State, s: Setup, table: Table, filter: seq<TypeRef>, pos: int) {
    st == State(Meanings(table.params, s.paramBody), TableColumns(s.types, filter, table), pos)
  }

  lemma TableHeld(s: Setup, traces: Children, table: Table, total: nat, filter: seq<TypeRef>, st: State)
    requires Typed(s, traces, table, total) && Selects(s, traces, filter)
    requires AllFilledUpTo(s, filter, table, st.cols, total) && FilledUpTo(st.params, table.params, s.paramBody, total)
    ensures Holds(st, s, table, filter, st.pos)
  {
    hide Typed, Selects, AllFilledUpTo, FilledUpTo, Meanings, TableColumns;
    ParamLength(s, traces, table, total);
    AllFilled(s, traces, table, total, filter, st.cols);
    FilledWhole(st.params, table.params, s.paramBody);
  }

  lemma {:induction false} AllWindowsRoundTrip(s: Setup, traces: Children, items: seq<Item>, table: Table, total: nat,
                                               windows: seq<Window>, filter: seq<TypeRef>, buf: Bytes, st: State)
    requires Laid(s, traces, items) && Typed(s, traces, table, total) && Selects(s, traces, filter)
    requires ReadableWindows(s, filter, windows)
    requires LegalWindows(s, traces, 0, total, windows) && At(buf, st.pos, EncWindows(table, items, 0, windows))
    requires st.params == [] && |st.cols| == |filter| && AllFilledUpTo(s, filter, table, st.cols, 0)
    ensures DecodeWindows(s, filter, buf, 0, total, st).Ok?
    ensures Holds(DecodeWindows(s, filter, buf, 0, total, st).value, s, table, filter,
                  st.pos + |EncWindows(table, items, 0, windows)|)
  {
    hide At, Laid, Typed, Selects, LegalWindows, AllFilledUpTo, DecodeWindows, EncWindows, Holds, FilledUpTo, Meanings;
    ParamLength(s, traces, table, total);
    assert Meanings(table.params, s.paramBody)[..0] == [];
    WindowsRoundTrip(s, traces, items, table, total, windows, filter, buf, 0, st);
    var end := DecodeWindows(s, filter, buf, 0, total, st).value;
    FilledByPrefix(end.params, table.params, s.paramBody);
    TableHeld(s, traces, table, total, filter, end);
  }

  lemma FilledByPrefix(col: Cells, data: seq<Datum>, body: TypeBody)
    requires col == Meanings(data, body)[..|data|]
    ensures FilledUpTo(col, data, body, |data|)
  {
  }

  /** Windowed round trip. For every table, every grouping of the traces with distinct identifiers, every window size
      and every split of the points into windows that hold them, decoding the encoded section returns the parameter
      column and the columns of any selected traces, and stops at its end. The header's "PSF traces" must be the
      number of group members, so that the stride between windows is the size of the layout. */
  lemma {:induction false} WindowedTableRoundTrip(view: FileView, s: Setup, traces: Children, items: seq<Item>,
                                                  table: Table, total: nat, windows: seq<Window>, filter: seq<TypeRef>,
                                                  buf: Bytes, p: int)
    requires WindowedSetup(view) == Ok(s) && Laid(s, traces, items) && Typed(s, traces, table, total)
    requires Selects(s, traces, filter) && LegalWindows(s, traces, 0, total, windows)
    requires ReadableWindows(s, filter, windows)
    requires At(buf, p, EncWindows(table, items, 0, windows))
    ensures DecodeWindowed(view, filter, buf, p, total, [])
         == Ok(State(Meanings(table.params, s.paramBody), TableColumns(s.types, filter, table),
                     p + |EncWindows(table, items, 0, windows)|))
  {
    hide At, Laid, Typed, Selects, LegalWindows, AllFilledUpTo, WindowedSetup, NewColumns, DecodeWindows, EncWindows,
         Meanings, TableColumns;
    SetupTypes(view);
    NothingFilled(s, traces, table, total, filter);
    var st := State([], NewColumns(s.types, filter, total).value, p);
    AllWindowsRoundTrip(s, traces, items, table, total, windows, filter, buf, st);
  }

  lemma FilledWhole(col: Cells, data: seq<Datum>, body: TypeBody)
    requires FilledUpTo(col, data, body, |data|)
    ensures col == Meanings(data, body)
  {
    assert col[..|data|] == col && Meanings(data, body)[..|data|] == Meanings(data, body);
  }

  lemma FilledStart(col: Cells, data: seq<Datum>, body: TypeBody)
    requires |col| == |data|
    ensures FilledUpTo(col, data, body, 0)
  {
  }

  lemma SetupTypes(view: FileView)
    ensures WindowedSetup(view).Ok? ==>
              WindowedSetup(view).value.types == view.types && WindowedSetup(view).value.window.Some?
    ensures PointSetup(view).Ok? ==> PointSetup(view).value.types == view.types && PointSetup(view).value.window == None
  {
  }

  lemma {:induction false} AllPointsRoundTrip(s: Setup, traces: Children, items: seq<Item>, table: Table, total: nat,
                                              filter: seq<TypeRef>, buf: Bytes, st: State)
    requires s.window.None? && IsInt32(s.paramId) && Laid(s, traces, items) && Typed(s, traces, table, total)
    requires Selects(s, traces, filter) && At(buf, st.pos, EncPoints(table, items, s.paramId, 0, total))
    requires total > 0 ==> ReadableRuns(s, filter, 1)
    requires |st.params| == total && |st.cols| == |filter| && AllFilledUpTo(s, filter, table, st.cols, 0)
    ensures DecodePoints(s, filter, buf, 0, 0, total, st).Ok?
    ensures Holds(DecodePoints(s, filter, buf, 0, 0, total, st).value, s, table, filter,
                  st.pos + |EncPoints(table, items, s.paramId, 0, total)|)
  {
    hide At, Laid, Typed, Selects, AllFilledUpTo, DecodePoints, EncPoints, Holds, FilledUpTo, Meanings;
    ParamLength(s, traces, table, total);
    FilledStart(st.params, table.params, s.paramBody);
    PointsRoundTrip(s, traces, items, table, total, filter, buf, 0, st);
    TableHeld(s, traces, table, total, filter, DecodePoints(s, filter, buf, 0, 0, total, st).value);
  }

  /** Point-by-point round trip, for any mix of top-level traces and groups; sweeps listed among the traces
      have no slot and cannot be selected. */
  lemma {:induction false} SimpleTableRoundTrip(view: FileView, s: Setup, traces: Children, items: seq<Item>,
                                                table: Table, total: nat, filter: seq<TypeRef>, buf: Bytes, p: int)
    requires PointSetup(view) == Ok(s) && IsInt32(s.paramId) && Laid(s, traces, items) && Typed(s, traces, table, total)
    requires Selects(s, traces, filter) && At(buf, p, EncPoints(table, items, s.paramId, 0, total))
    requires total > 0 ==> ReadableRuns(s, filter, 1)
    ensures DecodeSimple(view, filter, buf, p, total, [], [])
         == Ok(State(Meanings(table.params, s.paramBody), TableColumns(s.types, filter, table),
                     p + |EncPoints(table, items, s.paramId, 0, total)|))
  {
    hide At, Laid, Typed, Selects, AllFilledUpTo, PointSetup, NewColumns, DecodePoints, EncPoints, DecodeSimple,
         Meanings, TableColumns, Resize;
    SetupTypes(view);
    NothingFilled(s, traces, table, total, filter);
    FreshSimple(view, filter, buf, p, total, []);
    var grown := Resize([], total, InitValue(s.paramBody)).value;
    var st := State(grown, NewColumns(s.types, filter, total).value, p);
    AllPointsRoundTrip(s, traces, items, table, total, filter, buf, st);
  }
}
