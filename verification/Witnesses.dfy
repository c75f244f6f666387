/** Tables and windows to test the sweep decoders with: rows of zeros, but for the column of at most one trace. */
module Witnesses {
  import opened Base
  import opened Words
  import opened Keys
  import opened Types
  import opened Values
  import opened Legibility
  import opened Chunks
  import opened Containers
  import opened Offsets
  import opened Sweeps
  import opened SweepLaws
  import opened Runs
  import opened SweepTables
  import opened WindowSlots

  // ---------------------------------------------------------------- every placed trace has its own identifier

  function SlotIds(items: seq<Item>): seq<int> {
    if items == [] then [] else SlotIdOf(items[0]) + SlotIds(items[1..])
  }

  function SlotIdOf(item: Item): seq<int> {
    if item.Slot? then [item.id] else []
  }

  lemma {:induction false} SlotIdsConcat(a: seq<Item>, b: seq<Item>)
    ensures SlotIds(a + b) == SlotIds(a) + SlotIds(b)
    decreases |a|
  {
    hide SlotIdOf;
    if a == [] {
      assert a + b == b;
    } else {
      SlotIdsConcat(a[1..], b);
      var first, rest, more := SlotIdOf(a[0]), SlotIds(a[1..]), SlotIds(b);
      assert (a + b)[0] == a[0] && (a + b)[1..] == a[1..] + b;
      assert first + (rest + more) == first + rest + more;
    }
  }

  lemma {:induction false} MemberSlotIds(types: TypeTable, members: seq<TypeRef>, windowSize: int)
    requires MemberItems(types, members, windowSize).Ok?
    ensures SlotIds(MemberItems(types, members, windowSize).value) == MemberIds(members)
    decreases |members|
  {
    hide MemberItem;
    if members != [] {
      MemberSlotIds(types, members[1..], windowSize);
      MemberItemIsSlot(types, members[0], windowSize);
      var item, rest := MemberItem(types, members[0], windowSize).value,
          MemberItems(types, members[1..], windowSize).value;
      assert ([item] + rest)[1..] == rest;
      assert MemberIds(members) == [members[0].id] + MemberIds(members[1..]);
    }
  }

  lemma ChildSlotIds(types: TypeTable, c: Chunk<Value>, window: Option<int>)
    requires LayoutOf(types, c, window).Ok?
    ensures SlotIds(LayoutOf(types, c, window).value) == MemberIds(PlacedOf(types, c, window))
  {
    hide MemberItems, IsSweepType;
    var items := LayoutOf(types, c, window).value;
    if c.GroupChunk? {
      MemberSlotIds(types, c.group.members, if window.Some? then window.value else 0);
      if window.None? {
        assert items[1..] == MemberItems(types, c.group.members, 0).value;
      }
    } else if items != [] {
      HeadedSlotId(items[0], items[1]);
      assert items == [items[0], items[1]];
      assert MemberIds([c.ref]) == [c.ref.id];
    }
  }

  lemma HeadedSlotId(header: Item, slot: Item)
    requires header.Header? && slot.Slot?
    ensures SlotIds([header, slot]) == [slot.id]
  {
    assert SlotIds([slot]) == [slot.id] + SlotIds([slot][1..]) == [slot.id];
    assert [header, slot][1..] == [slot];
    assert SlotIds([header, slot]) == [] + SlotIds([header, slot][1..]);
  }

  lemma {:induction false} LayoutSlotIds(types: TypeTable, traces: Children, window: Option<int>)
    requires Layout(types, traces, window).Ok?
    ensures SlotIds(Layout(types, traces, window).value) == MemberIds(Placed(types, traces, window))
    decreases |traces|
  {
    hide LayoutOf, PlacedOf;
    if traces != [] {
      ChildSlotIds(types, traces[0], window);
      LayoutSlotIds(types, traces[1..], window);
      SlotIdsConcat(LayoutOf(types, traces[0], window).value, Layout(types, traces[1..], window).value);
      assert MemberIds(Placed(types, traces, window))
          == MemberIds(PlacedOf(types, traces[0], window)) + MemberIds(Placed(types, traces[1..], window));
    }
  }

  lemma {:induction false} SlotIdOrigin(items: seq<Item>, id: int)
    requires id in SlotIds(items)
    ensures exists k :: 0 <= k < |items| && items[k].Slot? && items[k].id == id
    decreases |items|
  {
    if !items[0].Slot? || items[0].id != id {
      SlotIdOrigin(items[1..], id);
      var k :| 0 <= k < |items| - 1 && items[1..][k].Slot? && items[1..][k].id == id;
      assert items[k + 1] == items[1..][k];
    }
  }

  lemma {:induction false} DistinctSlotIds(items: seq<Item>)
    requires DistinctSlots(items)
    ensures Distinct(SlotIds(items))
    decreases |items|
  {
    if items != [] {
      var rest := items[1..];
      assert forall k :: 0 <= k < |rest| ==> rest[k] == items[k + 1];
      DistinctSlotIds(rest);
      if items[0].Slot? {
        if items[0].id in SlotIds(rest) {
          SlotIdOrigin(rest, items[0].id);
        }
        DistinctFirst(items[0].id, SlotIds(rest));
      } else {
        assert [] + SlotIds(rest) == SlotIds(rest);
      }
    }
  }

  lemma DistinctFirst(id: int, rest: seq<int>)
    requires Distinct(rest) && id !in rest
    ensures Distinct([id] + rest)
  {
  }

  lemma {:induction false} PlacedApart(s: Setup, traces: Children, items: seq<Item>)
    requires Laid(s, traces, items)
    ensures Distinct(MemberIds(Placed(s.types, traces, s.window)))
  {
    hide Layout, Placed, AddSlots, Total;
    LayoutSlotIds(s.types, traces, s.window);
    DistinctSlotIds(items);
  }

  // ---------------------------------------------------------------- tables to test a decoder with

  ghost predicate KnownTypes(s: Setup, traces: Children) {
    forall ref :: ref in Placed(s.types, traces, s.window) ==> ref.typeId in s.types
  }

  function ColumnFor(types: TypeTable, ref: TypeRef, n: nat, spoiled: Option<TypeRef>): seq<Datum> {
    if spoiled == Some(ref) then SpoiledRun(BodyOf(types, ref), n) else ZeroRun(BodyOf(types, ref), n)
  }

  /** `n` rows of zeros, but for the column of at most one trace. */
  function TableFor(s: Setup, traces: Children, n: nat, spoiled: Option<TypeRef>): Table {
    var placed := Placed(s.types, traces, s.window);
    Table(ZeroRun(s.paramBody, n),
          LastMap(MemberIds(placed),
                  seq(|placed|, i requires 0 <= i < |placed| => ColumnFor(s.types, placed[i], n, spoiled))))
  }

  lemma ValueOf<T>(refs: seq<TypeRef>, vals: seq<T>, ref: TypeRef) returns (i: nat)
    requires Distinct(MemberIds(refs)) && |vals| == |refs| && ref in refs
    ensures i < |refs| && refs[i] == ref
    ensures ref.id in LastMap(MemberIds(refs), vals) && LastMap(MemberIds(refs), vals)[ref.id] == vals[i]
  {
    i :| 0 <= i < |refs| && refs[i] == ref;
    assert MemberIds(refs)[i] == ref.id;
    DistinctLookup(MemberIds(refs), vals, i);
  }

  lemma {:induction false} TableForTyped(s: Setup, traces: Children, items: seq<Item>, n: nat, spoiled: Option<TypeRef>)
    requires Laid(s, traces, items) && KnownTypes(s, traces)
    ensures Typed(s, traces, TableFor(s, traces, n, spoiled), n)
    ensures forall ref :: ref in Placed(s.types, traces, s.window) ==>
              && ref.id in TableFor(s, traces, n, spoiled).cols
              && TableFor(s, traces, n, spoiled).cols[ref.id] == ColumnFor(s.types, ref, n, spoiled)
  {
    PlacedApart(s, traces, items);
    hide Placed, Laid, LastMap, HasType, SpoiledRun, ZeroRun, Distinct;
    var placed := Placed(s.types, traces, s.window);
    var cols := seq(|placed|, i requires 0 <= i < |placed| => ColumnFor(s.types, placed[i], n, spoiled));
    forall ref | ref in placed
      ensures ref.id in TableFor(s, traces, n, spoiled).cols
      ensures TableFor(s, traces, n, spoiled).cols[ref.id] == ColumnFor(s.types, ref, n, spoiled)
    {
      var i := ValueOf(placed, cols, ref);
    }
  }

  /** `n` values of every trace fit a slot. */
  ghost predicate RoomFor(s: Setup, traces: Children, n: nat)
    requires s.window.Some?
  {
    forall ref :: ref in Placed(s.types, traces, s.window) ==> n * DataSize(BodyOf(s.types, ref)) <= s.window.value
  }

  function Zeros(n: int): (r: Bytes)
    ensures |r| == if n < 0 then 0 else n
  {
    seq(if n < 0 then 0 else n, _ => 0)
  }

  function PadsFor(s: Setup, traces: Children, n: nat): map<int, Bytes>
    requires s.window.Some?
  {
    var placed := Placed(s.types, traces, s.window);
    LastMap(MemberIds(placed),
            seq(|placed|, i requires 0 <= i < |placed| => PadFor(s, n, placed[i])))
  }

  function PadFor(s: Setup, n: nat, ref: TypeRef): Bytes
    requires s.window.Some?
  {
    Zeros(s.window.value - n * DataSize(BodyOf(s.types, ref)))
  }

  lemma {:induction false} PadsForFit(s: Setup, traces: Children, items: seq<Item>, i: nat, n: nat, total: nat)
    requires Laid(s, traces, items) && s.window.Some? && RoomFor(s, traces, n)
    requires i + n <= total
    ensures Fits(s, traces, WindowFilling(i, n, PadsFor(s, traces, n)), total)
    ensures forall ref :: ref in Placed(s.types, traces, s.window) ==>
              PadOf(WindowFilling(i, n, PadsFor(s, traces, n)), ref.id) == PadFor(s, n, ref)
  {
    PlacedApart(s, traces, items);
    hide Placed, Laid, LastMap, Distinct, DataSize, BodyOf, PadFor;
    var placed := Placed(s.types, traces, s.window);
    var pads := seq(|placed|, i requires 0 <= i < |placed| => PadFor(s, n, placed[i]));
    forall ref | ref in placed
      ensures |PadOf(WindowFilling(i, n, PadsFor(s, traces, n)), ref.id)| + n * DataSize(BodyOf(s.types, ref))
              == s.window.value
      ensures PadOf(WindowFilling(i, n, PadsFor(s, traces, n)), ref.id) == PadFor(s, n, ref)
    {
      var k := ValueOf(placed, pads, ref);
      PadForSize(s, n, ref);
    }
  }

  lemma PadForSize(s: Setup, n: nat, ref: TypeRef)
    requires s.window.Some? && n * DataSize(BodyOf(s.types, ref)) <= s.window.value
    ensures |PadFor(s, n, ref)| + n * DataSize(BodyOf(s.types, ref)) == s.window.value
  {
  }

  /** One window of `n` points is a legal one when there is room. */
  lemma {:induction false} OneWindowLegal(s: Setup, traces: Children, items: seq<Item>, n: nat)
    requires Laid(s, traces, items) && s.window.Some? && 1 <= n < 65536 && RoomFor(s, traces, n)
    ensures LegalWindows(s, traces, 0, n, [Window(n, 0, PadsFor(s, traces, n))])
  {
    hide Laid, Fits, RoomFor, PadsFor;
    PadsForFit(s, traces, items, 0, n, n);
    var windows := [Window(n, 0, PadsFor(s, traces, n))];
    assert windows[1..] == [];
    assert LegalWindows(s, traces, n, n, windows[1..]);
  }

  // ---------------------------------------------------------------- what an unreadable type does

  lemma {:induction false} IntoConsumes(body: TypeBody, buf: Bytes, p: int, col: Cells, at: nat, n: nat)
    requires DecodeInto(body, buf, p, col, at, n).Ok?
    ensures DecodeInto(body, buf, p, col, at, n).value.1 == p + n * Consumed(body)
    decreases n
  {
    hide DecodeData, DataSize, NestedComplex;
    if n > 0 {
      DataConsumes(body, buf, p);
      var (v, q) := DecodeData(body, buf, p).value;
      IntoConsumes(body, buf, q, col[at := v], at + 1, n - 1);
      assert n * Consumed(body) == Consumed(body) + (n - 1) * Consumed(body);
    }
  }

  lemma {:induction false} SpoiledColumn(s: Setup, traces: Children, items: seq<Item>, table: Table, n: nat, f: Filling,
                                         ref: TypeRef, buf: Bytes, base: int, col: Cells)
    requires Laid(s, traces, items) && Typed(s, traces, table, n) && Fits(s, traces, f, n) && First(f) == 0
             && Count(f) == n
    requires ref in Placed(s.types, traces, s.window) && At(buf, base, EncPieces(table.cols, f, items))
    requires !Readable(BodyOf(s.types, ref), n)
    requires ref.id in table.cols && table.cols[ref.id] == SpoiledRun(BodyOf(s.types, ref), n)
    ensures FillColumn(s, ref, buf, base, 0, n, col) != Ok(Meanings(table.cols[ref.id], BodyOf(s.types, ref)))
  {
    hide At, Laid, Typed, Fits, Placed, EncPieces, Readable, SpoiledRun, DecodeInto, Meanings, SlotStart, EncItems;
    var q := TraceDataAt(s, traces, items, table, n, f, ref, buf, base);
    var data := table.cols[ref.id];
    assert data[0..n] == data;
    UnreadableRunAt(BodyOf(s.types, ref), n, buf, q, col);
  }

  /** A selected trace that is not readable is not read back. */
  lemma {:induction false} SpoiledColumns(s: Setup, traces: Children, items: seq<Item>, filter: seq<TypeRef>,
                                          table: Table, n: nat, f: Filling, buf: Bytes, base: int, cols: seq<Cells>,
                                          j: nat)
    requires Laid(s, traces, items) && Typed(s, traces, table, n) && Fits(s, traces, f, n) && First(f) == 0
             && Count(f) == n
    requires Selects(s, traces, filter) && |cols| == |filter| && At(buf, base, EncPieces(table.cols, f, items))
    requires j < |filter| && SpoiledIn(s, table, n, filter[j])
    ensures FillColumns(s, filter, buf, base, 0, n, cols) != Ok(TableColumns(s.types, filter, table))
  {
    hide At, Laid, Typed, Fits, Placed, EncPieces, Readable, Meanings, FillColumn, FillColumns, SpoiledRun;
    FillColumnsEach(s, filter, buf, base, 0, n, cols);
    assert filter[j] in filter;
    SpoiledColumn(s, traces, items, table, n, f, filter[j], buf, base, cols[j]);
    assert TableColumns(s.types, filter, table)[j] == Meanings(table.cols[filter[j].id], BodyOf(s.types, filter[j]));
  }

  ghost predicate SpoiledIn(s: Setup, table: Table, n: nat, ref: TypeRef) {
    && !Readable(BodyOf(s.types, ref), n)
    && ref.id in table.cols && table.cols[ref.id] == SpoiledRun(BodyOf(s.types, ref), n)
  }

  /** A table that shows it when a selected trace is not readable for `n` points. */
  lemma SpoilingTable(s: Setup, traces: Children, items: seq<Item>, filter: seq<TypeRef>, n: nat)
    returns (table: Table, j: nat)
    requires Laid(s, traces, items) && KnownTypes(s, traces) && Selects(s, traces, filter)
    requires NestedComplex(s.paramBody) == 0 && !ReadableRuns(s, filter, n)
    ensures Typed(s, traces, table, n) && j < |filter| && SpoiledIn(s, table, n, filter[j])
  {
    hide Laid, KnownTypes, Typed, Placed, Readable, SpoiledRun, ZeroRun, NestedComplex, TableFor;
    var ref :| ref in filter && !Readable(BodyOf(s.types, ref), n);
    j :| 0 <= j < |filter| && filter[j] == ref;
    TableForTyped(s, traces, items, n, Some(ref));
    table := TableFor(s, traces, n, Some(ref));
  }

  lemma {:induction false} ExactParameter(s: Setup, table: Table, n: nat, buf: Bytes, grown: Cells)
    requires ColumnTyped(table.params, s.paramBody, n) && NestedComplex(s.paramBody) == 0
    requires DecodeInto(s.paramBody, buf, 8, grown, 0, n).Ok?
    ensures DecodeInto(s.paramBody, buf, 8, grown, 0, n).value.1 == 8 + |EncItems(table.params)|
  {
    hide DecodeInto, EncItems, HasType, DataSize, NestedComplex;
    IntoConsumes(s.paramBody, buf, 8, grown, 0, n);
    RunSize(table.params, s.paramBody);
  }

  // ---------------------------------------------------------------- bytes of zeros

  lemma {:induction false} ZeroRunBytes(data: seq<Datum>, body: TypeBody)
    requires forall k :: 0 <= k < |data| ==> data[k] == ZeroDatum(body)
    ensures AllZero(EncItems(data))
    decreases |data|
  {
    hide EncDatum, ZeroDatum, DataSize;
    if data != [] {
      ZeroDatumBytes(body);
      assert forall k :: 0 <= k < |data[1..]| ==> data[1..][k] == data[k + 1];
      ZeroRunBytes(data[1..], body);
    }
  }

  lemma {:induction false} ZeroPieces(cols: map<int, seq<Datum>>, f: Filling, items: seq<Item>)
    requires forall k :: 0 <= k < |items| ==> AllZero(EncPiece(cols, f, items[k]))
    ensures AllZero(EncPieces(cols, f, items))
    decreases |items|
  {
    hide EncPiece;
    if items != [] {
      ZeroPieces(cols, f, items[..|items| - 1]);
    }
  }

  /** Rows of zeros, as many as the windows need. */
  function ZeroTable(s: Setup, traces: Children, n: nat): Table {
    TableFor(s, traces, n, None)
  }

  /** Behind its two header words, a window of zeros is zero. */
  lemma {:induction false} ZeroPiece(s: Setup, traces: Children, items: seq<Item>, i: nat, n: nat, total: nat,
                                     ref: TypeRef)
    requires Laid(s, traces, items) && KnownTypes(s, traces) && s.window.Some? && RoomFor(s, traces, n)
             && i + n <= total
    requires ref in Placed(s.types, traces, s.window)
    ensures AllZero(EncPiece(ZeroTable(s, traces, total).cols, WindowFilling(i, n, PadsFor(s, traces, n)),
                             Slot(ref.id, SlotSize(s.types, ref, s.window))))
  {
    hide Laid, KnownTypes, Placed, RoomFor, ZeroTable, PadsFor, EncItems, SlotSize, EncPiece, Typed, Fits, DataSize;
    var table, f := ZeroTable(s, traces, total), WindowFilling(i, n, PadsFor(s, traces, n));
    ZeroColumns(s, traces, items, total);
    PadsForFit(s, traces, items, i, n, total);
    assert s.window.value > 0 by { WindowPositive(s, traces, items); }
    PieceOfTrace(s, traces, table, total, f, ref);
    var data := table.cols[ref.id][i..i + n];
    ZeroRunBytes(data, BodyOf(s.types, ref));
  }

  lemma {:induction false} WindowPositive(s: Setup, traces: Children, items: seq<Item>)
    requires Laid(s, traces, items) && s.window.Some?
    ensures s.window.value > 0 && Layout(s.types, traces, s.window) == Ok(items)
  {
  }

  lemma OnlySlots(s: Setup, traces: Children, items: seq<Item>)
    requires Laid(s, traces, items) && s.window.Some?
    ensures forall k :: 0 <= k < |items| ==> items[k].Slot?
  {
    hide Layout, AddSlots, Total, DistinctSlots;
    assert s.window == Some(s.window.value);
    WindowLayout(s.types, traces, s.window.value);
  }

  lemma SlotOwner(s: Setup, traces: Children, items: seq<Item>, k: nat) returns (ref: TypeRef)
    requires Laid(s, traces, items) && s.window.Some? && k < |items|
    ensures ref in Placed(s.types, traces, s.window) && items[k] == Slot(ref.id, SlotSize(s.types, ref, s.window))
  {
    OnlySlots(s, traces, items);
    SlotsOfLayout(s.types, traces, s.window);
    hide Layout, Placed, AddSlots, Total, DistinctSlots, SlotSize;
    ref :| ref in Placed(s.types, traces, s.window) && items[k] == Slot(ref.id, SlotSize(s.types, ref, s.window));
  }

  lemma {:induction false} ZeroColumns(s: Setup, traces: Children, items: seq<Item>, total: nat)
    requires Laid(s, traces, items) && KnownTypes(s, traces)
    ensures Typed(s, traces, ZeroTable(s, traces, total), total)
    ensures forall ref :: ref in Placed(s.types, traces, s.window) ==>
              && ref.id in ZeroTable(s, traces, total).cols
              && ZeroTable(s, traces, total).cols[ref.id] == ZeroRun(BodyOf(s.types, ref), total)
    ensures ZeroTable(s, traces, total).params == ZeroRun(s.paramBody, total)
  {
    hide Laid, KnownTypes, Placed, Typed;
    TableForTyped(s, traces, items, total, None);
  }

  lemma ZeroWindowBytes(s: Setup, traces: Children, items: seq<Item>, i: nat, n: nat, total: nat)
    requires Laid(s, traces, items) && KnownTypes(s, traces) && s.window.Some? && RoomFor(s, traces, n)
             && i + n <= total
    ensures var table := ZeroTable(s, traces, total);
            var bytes := EncWindow(table, items, i, Window(n, 0, PadsFor(s, traces, n)));
            && |bytes| == 8 + n * DataSize(s.paramBody) + s.advance
            && bytes[..8] == EncWord(TAG_SWEEP_VALUE) + EncWord(n) && AllZero(bytes[8..])
  {
    hide Laid, KnownTypes, Placed, RoomFor, ZeroTable, PadsFor, EncItems, EncPieces, SlotSize, EncPiece, Typed, Fits,
         DataSize, EncWord, Layout, HasType;
    var table, f := ZeroTable(s, traces, total), WindowFilling(i, n, PadsFor(s, traces, n));
    ZeroColumns(s, traces, items, total);
    PadsForFit(s, traces, items, i, n, total);
    TablePiecesSize(s, traces, items, table, total, f);
    var params, pieces := EncItems(table.params[i..i + n]), EncPieces(table.cols, f, items);
    RunSize(table.params[i..i + n], s.paramBody);
    ZeroRunBytes(table.params[i..i + n], s.paramBody);
    WindowPositive(s, traces, items);
    forall k | 0 <= k < |items| ensures AllZero(EncPiece(table.cols, f, items[k])) {
      var ref := SlotOwner(s, traces, items, k);
      ZeroPiece(s, traces, items, i, n, total, ref);
    }
    ZeroPieces(table.cols, f, items);
    var bytes := EncWindow(table, items, i, Window(n, 0, PadsFor(s, traces, n)));
    assert bytes == (EncWord(TAG_SWEEP_VALUE) + EncWord(n)) + (params + pieces);
  }

  lemma {:induction false} TablePiecesSize(s: Setup, traces: Children, items: seq<Item>, table: Table, n: nat,
                                           f: Filling)
    requires Laid(s, traces, items) && Typed(s, traces, table, n) && Fits(s, traces, f, n)
    ensures |EncPieces(table.cols, f, items)| == s.advance
  {
    hide Typed, Fits;
    TablePiecesFit(s, traces, items, table, n, f);
    PiecesSize(table.cols, f, items);
  }

}
