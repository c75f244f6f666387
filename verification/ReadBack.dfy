/** For which files the sweep decoders return every table that can be written: the round trips, with the exact
    condition on the types of the parameter and the selected traces, and on the count of traces in the header. */
module ReadBack {
  import opened Base
  import opened Words
  import opened Keys
  import opened Properties
  import opened Types
  import opened Values
  import opened Legibility
  import opened Chunks
  import opened Containers
  import opened Traces
  import opened Offsets
  import opened Sweeps
  import opened SweepLaws
  import opened Runs
  import opened SweepTables
  import opened WindowSlots
  import opened Witnesses

  /** The vectors of the table came out of a decode. How many bytes it took is of no interest to a caller. */
  ghost predicate Yields(r: Result<State>, s: Setup, filter: seq<TypeRef>, table: Table) {
    && r.Ok? && r.value.params == Meanings(table.params, s.paramBody)
    && r.value.cols == TableColumns(s.types, filter, table)
  }

  lemma FromState(r: Result<State>, s: Setup, filter: seq<TypeRef>, table: Table, pos: int)
    requires r == Ok(State(Meanings(table.params, s.paramBody), TableColumns(s.types, filter, table), pos))
    ensures Yields(r, s, filter, table)
  {
  }

  /** A tag is read where its last byte is. */
  lemma TagByte(buf: Bytes, p: int)
    requires ParseTag(buf, p, Some(TAG_SWEEP_VALUE)).Ok?
    ensures 0 <= p && p + 4 <= |buf| && buf[p + 3] == TAG_SWEEP_VALUE
  {
  }

  // ---------------------------------------------------------------- windows

  /** Every table that can be written in windows is read back for the filter. */
  ghost predicate EveryWindowedTableDecodes(view: FileView, s: Setup, traces: Children, items: seq<Item>,
                                            filter: seq<TypeRef>)
  {
    forall table, total: nat, windows, buf, p ::
      Typed(s, traces, table, total) && LegalWindows(s, traces, 0, total, windows)
      && At(buf, p, EncWindows(table, items, 0, windows))
      ==> Yields(DecodeWindowed(view, filter, buf, p, total, []), s, filter, table)
  }

  /** A file whose windows can hold `n` points has to be readable for `n` points. */
  ghost predicate ReadableWhereRoom(s: Setup, traces: Children, filter: seq<TypeRef>)
    requires s.window.Some?
  {
    forall n: nat :: 1 <= n < 65536 && RoomFor(s, traces, n) ==> ReadableRuns(s, filter, n)
  }

  lemma {:induction false} LegalIsReadable(s: Setup, traces: Children, filter: seq<TypeRef>, i: nat, total: nat,
                                           windows: seq<Window>)
    requires s.window.Some? && ReadableWhereRoom(s, traces, filter) && LegalWindows(s, traces, i, total, windows)
    ensures ReadableWindows(s, filter, windows)
    decreases |windows|
  {
    hide Placed, DataSize, ReadableRuns;
    if windows != [] {
      LegalIsReadable(s, traces, filter, i + windows[0].n, total, windows[1..]);
      assert RoomFor(s, traces, windows[0].n);
      assert forall k :: 0 < k < |windows| ==> windows[k] == windows[1..][k - 1];
    }
  }

  /** The bytes of a single window. */
  lemma {:induction false} SingleWindowAt(items: seq<Item>, table: Table, w: Window, buf: Bytes)
    requires 1 <= w.n < 65536 && w.left == 0 && |table.params| == w.n && buf == EncWindow(table, items, 0, w)
    ensures ParseTag(buf, 0, Some(TAG_SWEEP_VALUE)) == Ok(4)
    ensures GetInt(buf, 4).Ok? && PointCount(GetInt(buf, 4).value) == w.n
    ensures At(buf, 8 + |EncItems(table.params)|, EncPieces(table.cols, WindowFilling(0, w.n, w.pads), items))
    ensures |buf| == 8 + |EncItems(table.params)| + |EncPieces(table.cols, WindowFilling(0, w.n, w.pads), items)|
  {
    hide At, GetInt, ParseTag, EncWord, EncItems, EncPieces, PointCount;
    var count, params := EncWord(w.left * 65536 + w.n), EncItems(table.params);
    var pieces := EncPieces(table.cols, WindowFilling(0, w.n, w.pads), items);
    assert table.params[0..0 + w.n] == table.params;
    AtSelf([], buf, []);
    assert [] + buf + [] == buf;
    AtSplit(buf, 0, EncWord(TAG_SWEEP_VALUE), count + (params + pieces));
    AtSplit(buf, 4, count, params + pieces);
    AtSplit(buf, 8, params, pieces);
    TagAt(buf, 0, TAG_SWEEP_VALUE);
    CountAt(buf, 4, w.left, w.n);
  }

  /** A windowed decode of a single window. */
  lemma {:induction false} SingleWindow(view: FileView, s: Setup, filter: seq<TypeRef>, n: nat, buf: Bytes)
    requires WindowedSetup(view) == Ok(s) && n > 0 && DecodeWindowed(view, filter, buf, 0, n, []).Ok?
    requires ParseTag(buf, 0, Some(TAG_SWEEP_VALUE)) == Ok(4) && GetInt(buf, 4).Ok?
             && PointCount(GetInt(buf, 4).value) == n
    ensures NewColumns(view.types, filter, n).Ok?
    ensures var st := DecodeWindowed(view, filter, buf, 0, n, []).value;
            var params := DecodeInto(s.paramBody, buf, 8, Resize([], n, InitValue(s.paramBody)).value, 0, n);
            && params.Ok? && st.pos == params.value.1 + s.advance
            && FillColumns(s, filter, buf, params.value.1, 0, n, NewColumns(view.types, filter, n).value) == Ok(st.cols)
  {
    hide GetInt, ParseTag, DecodeInto, FillColumns, NewColumns, WindowedSetup, Resize, PointCount, DecodeWindows;
    var st := State([], NewColumns(view.types, filter, n).value, 0);
    OneWindowStep(s, filter, buf, n, st);
  }

  lemma {:induction false} OneWindowStep(s: Setup, filter: seq<TypeRef>, buf: Bytes, n: nat, st: State)
    requires |filter| == |st.cols| && n > 0 && DecodeWindows(s, filter, buf, 0, n, st).Ok?
    requires ParseTag(buf, st.pos, Some(TAG_SWEEP_VALUE)) == Ok(st.pos + 4)
    requires GetInt(buf, st.pos + 4).Ok? && PointCount(GetInt(buf, st.pos + 4).value) == n
    ensures DecodeWindow(s, filter, buf, 0, st).Ok?
    ensures DecodeWindow(s, filter, buf, 0, st).value == (DecodeWindows(s, filter, buf, 0, n, st).value, n)
  {
    hide GetInt, ParseTag, DecodeInto, FillColumns, Resize, PointCount;
    var (next, m) := DecodeWindow(s, filter, buf, 0, st).value;
    assert m == n;
    assert DecodeWindows(s, filter, buf, 0 + n, n, next) == Ok(next);
  }

  /** Behind a first window of `n` points, the next tag is looked for where the decoder takes the window to end. */
  lemma SecondTag(view: FileView, s: Setup, filter: seq<TypeRef>, n: nat, total: nat, buf: Bytes)
    requires WindowedSetup(view) == Ok(s) && 0 < n < total && DecodeWindowed(view, filter, buf, 0, total, []).Ok?
    requires ParseTag(buf, 0, Some(TAG_SWEEP_VALUE)) == Ok(4) && GetInt(buf, 4).Ok?
             && PointCount(GetInt(buf, 4).value) == n
    ensures var q := 8 + n * Consumed(s.paramBody) + s.advance;
            0 <= q && q + 4 <= |buf| && buf[q + 3] == TAG_SWEEP_VALUE
  {
    hide GetInt, ParseTag, DecodeInto, FillColumns, NewColumns, WindowedSetup, Resize, PointCount, DecodeWindows,
         Consumed;
    var st := State([], NewColumns(view.types, filter, total).value, 0);
    FirstWindowStep(s, filter, buf, n, total, st);
    var next := DecodeWindow(s, filter, buf, 0, st).value.0;
    WindowTag(s, filter, buf, n, total, next);
  }

  lemma {:induction false} FirstWindowStep(s: Setup, filter: seq<TypeRef>, buf: Bytes, n: nat, total: nat, st: State)
    requires |filter| == |st.cols| && st.params == [] && 0 < n < total
    requires DecodeWindows(s, filter, buf, 0, total, st).Ok?
    requires ParseTag(buf, st.pos, Some(TAG_SWEEP_VALUE)) == Ok(st.pos + 4)
    requires GetInt(buf, st.pos + 4).Ok? && PointCount(GetInt(buf, st.pos + 4).value) == n
    ensures DecodeWindow(s, filter, buf, 0, st).Ok? && DecodeWindow(s, filter, buf, 0, st).value.1 == n
    ensures DecodeWindow(s, filter, buf, 0, st).value.0.pos == st.pos + 8 + n * Consumed(s.paramBody) + s.advance
    ensures DecodeWindows(s, filter, buf, n, total, DecodeWindow(s, filter, buf, 0, st).value.0).Ok?
  {
    hide GetInt, ParseTag, DecodeInto, FillColumns, Resize, PointCount, Consumed;
    var grown := Resize(st.params, |st.params| + n, InitValue(s.paramBody)).value;
    IntoConsumes(s.paramBody, buf, st.pos + 8, grown, 0, n);
  }

  lemma {:induction false} WindowTag(s: Setup, filter: seq<TypeRef>, buf: Bytes, i: nat, total: nat, st: State)
    requires |filter| == |st.cols| && i < total && DecodeWindows(s, filter, buf, i, total, st).Ok?
    ensures 0 <= st.pos && st.pos + 4 <= |buf| && buf[st.pos + 3] == TAG_SWEEP_VALUE
  {
    hide GetInt, ParseTag, DecodeInto, FillColumns, Resize, PointCount;
    assert ParseTag(buf, st.pos, Some(TAG_SWEEP_VALUE)).Ok?;
    TagByte(buf, st.pos);
  }

  /** Two windows of `n` points each, holding nothing but zeros. */
  function TwoWindows(s: Setup, traces: Children, items: seq<Item>, n: nat): Bytes
    requires s.window.Some?
  {
    var w := Window(n, 0, PadsFor(s, traces, n));
    var table := ZeroTable(s, traces, n + n);
    EncWindow(table, items, 0, w) + EncWindow(table, items, n, w)
  }

  /** In two windows of zeros there are only the two tags and the two counts. */
  lemma TwoWindowsBytes(s: Setup, traces: Children, items: seq<Item>, n: nat)
    requires Laid(s, traces, items) && KnownTypes(s, traces) && s.window.Some? && RoomFor(s, traces, n)
    requires 1 <= n < 65536
    ensures var buf, size := TwoWindows(s, traces, items, n), 8 + n * DataSize(s.paramBody) + s.advance;
            && |buf| == size + size && size >= 8
            && (forall k :: 8 <= k < size + 3 ==> buf[k] == 0)
            && (forall k :: size + 8 <= k < size + size ==> buf[k] == 0)
            && (n == 1 ==> forall k :: 4 <= k < 8 || size + 4 <= k < size + 8 ==> buf[k] <= 1)
    ensures var buf := TwoWindows(s, traces, items, n);
            && ParseTag(buf, 0, Some(TAG_SWEEP_VALUE)) == Ok(4)
            && GetInt(buf, 4).Ok? && PointCount(GetInt(buf, 4).value) == n
  {
    hide Laid, KnownTypes, RoomFor, ZeroTable, PadsFor, EncWindow, DataSize, GetInt, ParseTag, EncWord, PointCount;
    var w, table := Window(n, 0, PadsFor(s, traces, n)), ZeroTable(s, traces, n + n);
    ZeroWindowBytes(s, traces, items, 0, n, n + n);
    ZeroWindowBytes(s, traces, items, n, n, n + n);
    AdvancePositive(s, traces, items, n);
    assert n * DataSize(s.paramBody) >= 0;
    var a, b := EncWindow(table, items, 0, w), EncWindow(table, items, n, w);
    HeadedZeros(a, b, n);
    HeadAt(a, b, n);
  }

  /** Two windows, each of two header words and zeros. */
  lemma HeadedZeros(a: Bytes, b: Bytes, n: nat)
    requires |a| == |b| >= 8 && AllZero(a[8..]) && AllZero(b[8..])
    requires a[..8] == b[..8] == EncWord(TAG_SWEEP_VALUE) + EncWord(n)
    ensures forall k :: 8 <= k < |a| + 3 ==> (a + b)[k] == 0
    ensures forall k :: |a| + 8 <= k < |a| + |b| ==> (a + b)[k] == 0
    ensures n == 1 ==> forall k :: 4 <= k < 8 || |a| + 4 <= k < |a| + 8 ==> (a + b)[k] <= 1
  {
    hide EncWord;
    WordBytes(n);
    forall k | 8 <= k < |a| ensures a[k] == 0 && b[k] == 0 {
      assert a[k] == a[8..][k - 8] && b[k] == b[8..][k - 8];
    }
    forall k | 0 <= k < 8 ensures a[k] == b[k] == if k < 4 then EncWord(TAG_SWEEP_VALUE)[k] else EncWord(n)[k - 4] {
      assert a[k] == a[..8][k] && b[k] == b[..8][k];
    }
  }

  lemma HeadAt(a: Bytes, b: Bytes, n: nat)
    requires |a| >= 8 && a[..8] == EncWord(TAG_SWEEP_VALUE) + EncWord(n) && n < 65536
    ensures ParseTag(a + b, 0, Some(TAG_SWEEP_VALUE)) == Ok(4)
    ensures GetInt(a + b, 4).Ok? && PointCount(GetInt(a + b, 4).value) == n
  {
    hide At, GetInt, ParseTag, EncWord, PointCount;
    var buf, tail := a + b, a[8..] + b;
    AtSelf([], buf, []);
    assert [] + buf + [] == buf;
    assert buf == EncWord(TAG_SWEEP_VALUE) + (EncWord(0 * 65536 + n) + tail);
    AtSplit(buf, 0, EncWord(TAG_SWEEP_VALUE), EncWord(0 * 65536 + n) + tail);
    AtSplit(buf, 4, EncWord(0 * 65536 + n), tail);
    TagAt(buf, 0, TAG_SWEEP_VALUE);
    CountAt(buf, 4, 0, n);
  }

  lemma WordBytes(n: nat)
    ensures EncWord(TAG_SWEEP_VALUE) == [0, 0, 0, 16]
    ensures n == 1 ==> EncWord(n) == [0, 0, 0, 1]
  {
  }

  /** The two windows are a legal way to write a table. */
  lemma {:induction false} TwoWindowsLegal(s: Setup, traces: Children, items: seq<Item>, n: nat)
    requires Laid(s, traces, items) && KnownTypes(s, traces) && s.window.Some? && RoomFor(s, traces, n)
    requires 1 <= n < 65536
    ensures var w := Window(n, 0, PadsFor(s, traces, n));
            && LegalWindows(s, traces, 0, n + n, [w, w])
            && EncWindows(ZeroTable(s, traces, n + n), items, 0, [w, w]) == TwoWindows(s, traces, items, n)
  {
    hide Laid, KnownTypes, Fits, RoomFor, PadsFor, EncWindow, ZeroTable;
    PadsForFit(s, traces, items, 0, n, n + n);
    PadsForFit(s, traces, items, n, n, n + n);
    var w, table := Window(n, 0, PadsFor(s, traces, n)), ZeroTable(s, traces, n + n);
    assert [w, w][1..] == [w] && [w][1..] == [];
    assert LegalWindows(s, traces, n + n, n + n, [w][1..]);
    assert LegalWindows(s, traces, n, n + n, [w, w][1..]);
    assert EncWindows(table, items, n + n, [w][1..]) == [];
    assert EncWindows(table, items, n, [w, w][1..]) == EncWindow(table, items, n, w);
  }

  /** The two windows are not decoded if the second tag is looked for anywhere but where one of the two tags is. The
      counts of the windows do not look like a tag if they are 1. */
  lemma SecondTagMissed(view: FileView, s: Setup, laid: Setup, traces: Children, items: seq<Item>, filter: seq<TypeRef>,
                        n: nat)
    requires WindowedSetup(view) == Ok(s) && laid == s.(advance := laid.advance) && Laid(laid, traces, items)
    requires KnownTypes(laid, traces) && s.window.Some? && RoomFor(laid, traces, n) && 1 <= n < 65536
    requires var q, size := n * Consumed(s.paramBody) + s.advance, n * DataSize(s.paramBody) + laid.advance;
             q != -8 && q != size && (q < 0 || q > size ==> n == 1)
    ensures !EveryWindowedTableDecodes(view, s, traces, items, filter)
  {
    hide At, Laid, KnownTypes, Typed, Placed, RoomFor, WindowedSetup, Meanings, TableColumns, TwoWindows, Consumed,
         DataSize, PadsFor, LegalWindows, GetInt, ParseTag, PointCount, ZeroTable, EncWindows, DecodeWindowed;
    var buf, table, w := TwoWindows(laid, traces, items, n), ZeroTable(laid, traces, n + n),
                         Window(n, 0, PadsFor(laid, traces, n));
    TwoWindowsBytes(laid, traces, items, n);
    TwoWindowsLegal(laid, traces, items, n);
    ZeroColumns(laid, traces, items, n + n);
    SameTables(s, laid, traces, table, n + n, [w, w]);
    AtSelf([], buf, []);
    assert [] + buf + [] == buf;
    if EveryWindowedTableDecodes(view, s, traces, items, filter) {
      assert Yields(DecodeWindowed(view, filter, buf, 0, n + n, []), s, filter, table);
      SecondTag(view, s, filter, n, n + n, buf);
    }
  }

  /** What can be written does not depend on the stride of the decoder. */
  lemma {:induction false} SameTables(s: Setup, laid: Setup, traces: Children, table: Table, total: nat,
                                      windows: seq<Window>)
    requires laid == s.(advance := laid.advance)
    ensures Typed(s, traces, table, total) <==> Typed(laid, traces, table, total)
    ensures LegalWindows(s, traces, 0, total, windows) <==> LegalWindows(laid, traces, 0, total, windows)
  {
    hide Placed, ColumnTyped;
    SameWindows(s, laid, traces, 0, total, windows);
  }

  lemma {:induction false} SameWindows(s: Setup, laid: Setup, traces: Children, i: nat, total: nat,
                                       windows: seq<Window>)
    requires laid == s.(advance := laid.advance)
    ensures LegalWindows(s, traces, i, total, windows) <==> LegalWindows(laid, traces, i, total, windows)
    decreases |windows|
  {
    hide Placed, DataSize;
    if windows != [] {
      SameWindows(s, laid, traces, i + windows[0].n, total, windows[1..]);
    }
  }

  /** A parameter with a complex number inside a struct makes the decoder miss the tag of the second window. */
  lemma LaggingWindows(view: FileView, s: Setup, traces: Children, items: seq<Item>, filter: seq<TypeRef>, n: nat)
    requires WindowedSetup(view) == Ok(s) && Laid(s, traces, items) && s.window.Some? && KnownTypes(s, traces)
    requires 1 <= n < 65536 && RoomFor(s, traces, n) && NestedComplex(s.paramBody) > 0
    ensures !EveryWindowedTableDecodes(view, s, traces, items, filter)
  {
    hide Laid, KnownTypes, RoomFor, WindowedSetup, EveryWindowedTableDecodes, DataSize, NestedComplex, ComplexLeaves;
    AdvancePositive(s, traces, items, n);
    ComplexWithinSize(s.paramBody);
    NestedAtMost(s.paramBody);
    Lag(n, DataSize(s.paramBody), NestedComplex(s.paramBody));
    SecondTagMissed(view, s, s, traces, items, filter, n);
  }

  lemma {:induction false} NestedAtMost(body: TypeBody)
    ensures NestedComplex(body) <= ComplexLeaves(body)
  {
  }

  lemma Lag(n: nat, size: int, c: nat)
    requires n > 0 && c > 0 && 16 * c <= size
    ensures 0 < n * (size - 8 * c) < n * size
  {
    assert n * size == n * (size - 8 * c) + n * (8 * c);
    assert n * (8 * c) > 0 && n * (size - 8 * c) > 0;
  }

  lemma AdvancePositive(s: Setup, traces: Children, items: seq<Item>, n: nat)
    requires Laid(s, traces, items) && KnownTypes(s, traces) && s.window.Some? && RoomFor(s, traces, n)
    ensures s.advance >= 0
  {
    hide Laid, KnownTypes, RoomFor, Typed, Fits, EncPieces, ZeroTable, PadsFor;
    ZeroColumns(s, traces, items, n);
    PadsForFit(s, traces, items, 0, n, n);
    TablePiecesSize(s, traces, items, ZeroTable(s, traces, n), n, WindowFilling(0, n, PadsFor(s, traces, n)));
  }

  /** A selected trace that is not readable shows in a single window. */
  lemma UnreadableWindow(view: FileView, s: Setup, traces: Children, items: seq<Item>, filter: seq<TypeRef>, n: nat)
    requires WindowedSetup(view) == Ok(s) && Laid(s, traces, items) && s.window.Some? && KnownTypes(s, traces)
    requires Selects(s, traces, filter) && 1 <= n < 65536 && RoomFor(s, traces, n) && !ReadableRuns(s, filter, n)
    requires NestedComplex(s.paramBody) == 0
    ensures !EveryWindowedTableDecodes(view, s, traces, items, filter)
  {
    hide At, Laid, KnownTypes, Typed, Placed, Selects, ReadableRuns, RoomFor, WindowedSetup, Meanings, TableColumns,
         EncWindow, EncPieces, EncItems, NewColumns, DecodeInto, FillColumns, Resize, SpoiledIn, NestedComplex,
         DecodeWindowed, PadsFor, LegalWindows, Fits, GetInt, ParseTag, PointCount, ColumnTyped;
    var w := Window(n, 0, PadsFor(s, traces, n));
    OneWindowLegal(s, traces, items, n);
    var table, j := SpoilingTable(s, traces, items, filter, n);
    var buf := EncWindow(table, items, 0, w);
    OnlyWindow(table, items, w);
    AtSelf([], buf, []);
    assert [] + buf + [] == buf;
    if EveryWindowedTableDecodes(view, s, traces, items, filter) {
      assert Yields(DecodeWindowed(view, filter, buf, 0, n, []), s, filter, table);
      ParamTyped(s, traces, table, n);
      SingleWindowAt(items, table, w, buf);
      SingleWindow(view, s, filter, n, buf);
      FitsOnly(s, traces, n, w);
      ExactParameter(s, table, n, buf, Resize([], n, InitValue(s.paramBody)).value);
      SpoiledColumns(s, traces, items, filter, table, n, WindowFilling(0, n, w.pads), buf, 8 + |EncItems(table.params)|,
                     NewColumns(view.types, filter, n).value, j);
    }
  }

  lemma ParamTyped(s: Setup, traces: Children, table: Table, n: nat)
    requires Typed(s, traces, table, n)
    ensures ColumnTyped(table.params, s.paramBody, n) && |table.params| == n
  {
  }

  lemma {:induction false} OnlyWindow(table: Table, items: seq<Item>, w: Window)
    ensures EncWindows(table, items, 0, [w]) == EncWindow(table, items, 0, w)
  {
    hide EncWindow;
    assert [w][1..] == [];
    assert EncWindows(table, items, 0, [w]) == EncWindow(table, items, 0, w) + EncWindows(table, items, w.n, [w][1..]);
  }

  lemma {:induction false} FitsOnly(s: Setup, traces: Children, n: nat, w: Window)
    requires LegalWindows(s, traces, 0, n, [w])
    ensures Fits(s, traces, WindowFilling(0, w.n, w.pads), n)
  {
    hide Fits;
  }

  /** Every table written in windows is read back exactly when `n` points are readable wherever `n` points fit a
      window: no complex number inside a struct that is the parameter, none in a selected trace if two points fit,
      and none before or in a surviving scalar of a selected trace if only one point fits. */
  lemma WindowedReadBackExactly(view: FileView, s: Setup, traces: Children, items: seq<Item>, filter: seq<TypeRef>)
    requires WindowedSetup(view) == Ok(s) && s.window.Some? && Laid(s, traces, items)
    requires KnownTypes(s, traces) && Selects(s, traces, filter)
    ensures EveryWindowedTableDecodes(view, s, traces, items, filter) <==> ReadableWhereRoom(s, traces, filter)
  {
    hide At, Laid, KnownTypes, Typed, Selects, RoomFor, WindowedSetup, Meanings, TableColumns, EncWindows,
         NestedComplex, DecodeWindowed, LegalWindows, Yields, Readable;
    if ReadableWhereRoom(s, traces, filter) {
      forall table, total: nat, windows, buf, p
        | Typed(s, traces, table, total) && LegalWindows(s, traces, 0, total, windows)
          && At(buf, p, EncWindows(table, items, 0, windows))
        ensures Yields(DecodeWindowed(view, filter, buf, p, total, []), s, filter, table)
      {
        LegalIsReadable(s, traces, filter, 0, total, windows);
        WindowedTableRoundTrip(view, s, traces, items, table, total, windows, filter, buf, p);
        FromState(DecodeWindowed(view, filter, buf, p, total, []), s, filter, table,
                  p + |EncWindows(table, items, 0, windows)|);
      }
    } else {
      var n: nat :| 1 <= n < 65536 && RoomFor(s, traces, n) && !ReadableRuns(s, filter, n);
      if NestedComplex(s.paramBody) > 0 {
        LaggingWindows(view, s, traces, items, filter, n);
      } else {
        UnreadableWindow(view, s, traces, items, filter, n);
      }
    }
  }

  /** With windows that hold at least a point, and everything readable, every table is read back exactly when the
      header's "PSF traces" counts the group members; any other count makes the decoder miss the second window. The
      one exception is a negative count that leads it back to the first. */
  lemma {:induction false} CountReadBackExactly(view: FileView, s: Setup, traces: Children, filter: seq<TypeRef>)
    requires WindowedSetup(view) == Ok(s) && s.window.value > 0 && DataSize(s.paramBody) + s.advance != -8
    requires (forall c :: c in traces ==> c.GroupChunk?) && Distinct(MemberIds(Leaves(traces)))
    requires view.offsets == AddSlots(map[], SlotsOf(Leaves(traces), s.window.value), 0)
    requires KnownTypes(s, traces) && Selects(s, traces, filter)
    requires RoomFor(s, traces, 1) && ReadableWhereRoom(s, traces, filter)
    ensures EveryWindowedTableDecodes(view, s, traces, SlotsOf(Leaves(traces), s.window.value), filter) <==>
            FindInt(view.header, TRACES) == Ok(|Leaves(traces)|)
  {
    hide KnownTypes, Selects, RoomFor, ReadableWhereRoom, EveryWindowedTableDecodes, Laid, Placed, AddSlots, FindIn,
         LookupType, FirstSweep, Total, ReadableRuns, Distinct, DataSize;
    var items := SlotsOf(Leaves(traces), s.window.value);
    WindowedSetupIsLaid(view, s, traces);
    if FindInt(view.header, TRACES) == Ok(|Leaves(traces)|) {
      WindowedReadBackExactly(view, s, traces, items, filter);
    } else {
      var laid := s.(advance := |Leaves(traces)| * s.window.value);
      SlotsLaid(laid, traces);
      assert RoomFor(laid, traces, 1) && KnownTypes(laid, traces) by { SameRoom(s, laid, traces); }
      WrongCount(view, s, laid, traces, items, filter);
    }
  }

  lemma SameRoom(s: Setup, laid: Setup, traces: Children)
    requires s.window.Some? && laid == s.(advance := laid.advance) && RoomFor(s, traces, 1) && KnownTypes(s, traces)
    ensures RoomFor(laid, traces, 1) && KnownTypes(laid, traces)
  {
    hide Placed, DataSize;
  }

  lemma {:induction false} WrongCount(view: FileView, s: Setup, laid: Setup, traces: Children, items: seq<Item>,
                                      filter: seq<TypeRef>)
    requires WindowedSetup(view) == Ok(s) && s.window.value > 0 && DataSize(s.paramBody) + s.advance != -8
    requires laid == s.(advance := |Leaves(traces)| * s.window.value) && Laid(laid, traces, items)
    requires RoomFor(laid, traces, 1) && KnownTypes(laid, traces) && ReadableWhereRoom(s, traces, filter)
    requires RoomFor(s, traces, 1) && FindInt(view.header, TRACES) != Ok(|Leaves(traces)|)
    ensures !EveryWindowedTableDecodes(view, s, traces, items, filter)
  {
    hide KnownTypes, RoomFor, EveryWindowedTableDecodes, Laid, Placed, FindIn, LookupType, FirstSweep, NestedComplex,
         Readable, Leaves, DataSize;
    var ntraces := FindInt(view.header, TRACES).value;
    assert ReadableRuns(s, filter, 1);
    SameProduct(ntraces, |Leaves(traces)|, s.window.value);
    assert s.advance == ntraces * s.window.value;
    SecondTagMissed(view, s, laid, traces, items, filter, 1);
  }

  // ---------------------------------------------------------------- points

  /** Every table is read back for the filter when it is written point by point. */
  ghost predicate EveryTableDecodes(view: FileView, s: Setup, traces: Children, items: seq<Item>,
                                    filter: seq<TypeRef>)
  {
    forall table, total: nat, buf, p ::
      Typed(s, traces, table, total) && At(buf, p, EncPoints(table, items, s.paramId, 0, total))
      ==> Yields(DecodeSimple(view, filter, buf, p, total, [], []), s, filter, table)
  }

  /** The bytes of a single point. */
  lemma {:induction false} SinglePointAt(items: seq<Item>, table: Table, paramId: int, buf: Bytes)
    requires IsInt32(paramId) && |table.params| == 1 && buf == EncPoint(table, items, paramId, 0)
    ensures ParseTag(buf, 0, Some(TAG_SWEEP_VALUE)) == Ok(4) && GetInt(buf, 4) == Ok(paramId)
    ensures At(buf, 8 + |EncItems(table.params)|, EncPieces(table.cols, PointFilling(0), items))
    ensures |buf| == 8 + |EncItems(table.params)| + |EncPieces(table.cols, PointFilling(0), items)|
  {
    hide At, GetInt, ParseTag, EncWord, EncInt, EncItems, EncPieces;
    var id, params, pieces := EncInt(paramId), EncItems(table.params), EncPieces(table.cols, PointFilling(0), items);
    assert table.params[0..0 + 1] == table.params;
    AtSelf([], buf, []);
    assert [] + buf + [] == buf;
    AtSplit(buf, 0, EncWord(TAG_SWEEP_VALUE), id + (params + pieces));
    AtSplit(buf, 4, id, params + pieces);
    AtSplit(buf, 8, params, pieces);
    TagAt(buf, 0, TAG_SWEEP_VALUE);
    IntAt(buf, 4, paramId);
  }

  /** A decode of a single point. */
  lemma {:induction false} SinglePoint(view: FileView, s: Setup, filter: seq<TypeRef>, buf: Bytes)
    requires PointSetup(view) == Ok(s) && DecodeSimple(view, filter, buf, 0, 1, [], []).Ok?
    requires ParseTag(buf, 0, Some(TAG_SWEEP_VALUE)) == Ok(4) && GetInt(buf, 4) == Ok(s.paramId)
    ensures NewColumns(view.types, filter, 1).Ok?
    ensures var st := DecodeSimple(view, filter, buf, 0, 1, [], []).value;
            var params := DecodeInto(s.paramBody, buf, 8, Resize([], 1, InitValue(s.paramBody)).value, 0, 1);
            && params.Ok? && st.pos == params.value.1 + s.advance
            && FillColumns(s, filter, buf, params.value.1, 0, 1, NewColumns(view.types, filter, 1).value) == Ok(st.cols)
  {
    hide GetInt, ParseTag, DecodeInto, FillColumns, NewColumns, PointSetup, Resize, DecodeSimple, DecodePoints;
    ColumnsMade(view, filter, buf);
    FreshSimple(view, filter, buf, 0, 1, []);
    var st := State(Resize([], 1, InitValue(s.paramBody)).value, NewColumns(view.types, filter, 1).value, 0);
    OnePointStep(s, filter, buf, st);
  }

  lemma {:induction false} OnePointStep(s: Setup, filter: seq<TypeRef>, buf: Bytes, st: State)
    requires |filter| == |st.cols|
    ensures DecodePoints(s, filter, buf, 0, 0, 1, st) == DecodePoint(s, filter, buf, 0, 0, st)
  {
    hide DecodePoint;
    var next := DecodePoint(s, filter, buf, 0, 0, st);
    if next.Ok? {
      assert DecodePoints(s, filter, buf, 0, 1, 1, next.value) == next;
    }
  }

  lemma {:induction false} ColumnsMade(view: FileView, filter: seq<TypeRef>, buf: Bytes)
    requires DecodeSimple(view, filter, buf, 0, 1, [], []).Ok?
    ensures NewColumns(view.types, filter, 1).Ok?
  {
  }

  /** A selected trace that is not legible shows in a single point. */
  lemma UnreadablePoint(view: FileView, s: Setup, traces: Children, items: seq<Item>, filter: seq<TypeRef>)
    requires PointSetup(view) == Ok(s) && IsInt32(s.paramId) && Laid(s, traces, items) && KnownTypes(s, traces)
    requires Selects(s, traces, filter) && NestedComplex(s.paramBody) == 0 && !ReadableRuns(s, filter, 1)
    ensures !EveryTableDecodes(view, s, traces, items, filter)
  {
    hide At, Laid, KnownTypes, Typed, Placed, Selects, ReadableRuns, PointSetup, Meanings, TableColumns, EncPoint,
         EncPieces, EncItems, NewColumns, DecodeInto, FillColumns, Resize, SpoiledIn, NestedComplex, DecodeSimple,
         GetInt, ParseTag, ColumnTyped;
    assert s.window.None? by { SetupTypes(view); }
    var table, j := SpoilingTable(s, traces, items, filter, 1);
    var buf := EncPoint(table, items, s.paramId, 0);
    assert EncPoints(table, items, s.paramId, 0, 1) == buf + EncPoints(table, items, s.paramId, 1, 1) == buf;
    AtSelf([], buf, []);
    assert [] + buf + [] == buf;
    if EveryTableDecodes(view, s, traces, items, filter) {
      assert Yields(DecodeSimple(view, filter, buf, 0, 1, [], []), s, filter, table);
      ParamTyped(s, traces, table, 1);
      SinglePointAt(items, table, s.paramId, buf);
      SinglePoint(view, s, filter, buf);
      ExactParameter(s, table, 1, buf, Resize([], 1, InitValue(s.paramBody)).value);
      SpoiledColumns(s, traces, items, filter, table, 1, PointFilling(0), buf, 8 + |EncItems(table.params)|,
                     NewColumns(view.types, filter, 1).value, j);
    }
  }

  /** A decode that succeeds has found the tag of every point where its stride led it. */
  lemma {:induction false} PointTag(s: Setup, filter: seq<TypeRef>, buf: Bytes, start: nat, i: nat, k: nat, total: nat,
                                    st: State)
    requires |filter| == |st.cols| && i <= k < total && DecodePoints(s, filter, buf, start, i, total, st).Ok?
    ensures var q := st.pos + (k - i) * (8 + Consumed(s.paramBody) + s.advance);
            0 <= q && q + 4 <= |buf| && buf[q + 3] == TAG_SWEEP_VALUE
    decreases k - i
  {
    hide Consumed, DecodePoint;
    if i == k {
      DecodedTag(s, filter, buf, start, i, st);
    } else {
      PointAdvance(s, filter, buf, start, i, st);
      PointTag(s, filter, buf, start, i + 1, k, total, DecodePoint(s, filter, buf, start, i, st).value);
      var step := 8 + Consumed(s.paramBody) + s.advance;
      assert (k - i) * step == step + (k - (i + 1)) * step;
    }
  }

  lemma DecodedTag(s: Setup, filter: seq<TypeRef>, buf: Bytes, start: nat, i: nat, st: State)
    requires |filter| == |st.cols| && DecodePoint(s, filter, buf, start, i, st).Ok?
    ensures 0 <= st.pos && st.pos + 4 <= |buf| && buf[st.pos + 3] == TAG_SWEEP_VALUE
  {
    hide FillColumns, DecodeInto, GetInt, ParseTag;
    TagByte(buf, st.pos);
  }

  /** Every point of a written table has its place. */
  lemma {:induction false} PointAt(items: seq<Item>, table: Table, paramId: int, i: nat, k: nat, total: nat, size: nat,
                                   buf: Bytes, p: int)
    requires At(buf, p, EncPoints(table, items, paramId, i, total)) && i <= k < total
    requires forall m: nat :: m < total ==> |EncPoint(table, items, paramId, m)| == size
    ensures At(buf, p + (k - i) * size, EncPoint(table, items, paramId, k))
    decreases k - i
  {
    hide At, EncPoint;
    var first, rest := EncPoint(table, items, paramId, i), EncPoints(table, items, paramId, i + 1, total);
    AtSplit(buf, p, first, rest);
    if i < k {
      PointAt(items, table, paramId, i + 1, k, total, size, buf, p + size);
      assert (k - i) * size == size + (k - (i + 1)) * size;
    }
  }

  /** A point of zeros: its size, and the zeros of its parameter. */
  lemma ZeroPoint(s: Setup, traces: Children, items: seq<Item>, k: nat, total: nat)
    requires Laid(s, traces, items) && KnownTypes(s, traces) && s.window.None? && k < total
    ensures var size := DataSize(s.paramBody);
            var bytes := EncPoint(ZeroTable(s, traces, total), items, s.paramId, k);
            && s.advance >= 0 && |bytes| == 8 + size + s.advance && AllZero(bytes[8..8 + size])
  {
    hide Laid, KnownTypes, Placed, ZeroTable, EncItems, EncPieces, Typed, DataSize, EncWord, HasType;
    var table := ZeroTable(s, traces, total);
    ZeroColumns(s, traces, items, total);
    TablePiecesSize(s, traces, items, table, total, PointFilling(k));
    var data := table.params[k..k + 1];
    RunSize(data, s.paramBody);
    ZeroRunBytes(data, s.paramBody);
    var bytes, params, pieces := EncPoint(table, items, s.paramId, k), EncItems(data),
                                 EncPieces(table.cols, PointFilling(k), items);
    var head := EncWord(TAG_SWEEP_VALUE) + EncInt(s.paramId);
    assert |head| == 8 && bytes == head + params + pieces;
    assert bytes[8..8 + DataSize(s.paramBody)] == params;
  }

  /** The number of points after which a lag of `8 * c` bytes a point exceeds `a + 3` bytes. */
  lemma LagPoint(a: nat, c: nat) returns (k: nat)
    requires c > 0
    ensures k > 0 && a + 3 < k * (8 * c) <= a + 3 + 8 * c
  {
    var d := 8 * c;
    k := (a + 3) / d + 1;
    assert a + 3 == d * ((a + 3) / d) + (a + 3) % d;
    assert k * d == d * ((a + 3) / d) + d;
  }

  /** A parameter with a complex number inside a struct makes the cursor lag by 8 bytes for each, at every point.
      After enough points of zeros, the next tag is looked for in the parameter of the point before. */
  lemma LaggingPoints(view: FileView, s: Setup, traces: Children, items: seq<Item>, filter: seq<TypeRef>)
    requires PointSetup(view) == Ok(s) && IsInt32(s.paramId) && Laid(s, traces, items) && KnownTypes(s, traces)
    requires NestedComplex(s.paramBody) > 0
    ensures !EveryTableDecodes(view, s, traces, items, filter)
  {
    hide At, Laid, KnownTypes, Typed, PointSetup, Meanings, TableColumns, EncPoints, DecodeSimple, ZeroTable, EncPoint,
         NestedComplex, ComplexLeaves, DataSize;
    assert s.window.None? by { SetupTypes(view); }
    assert s.advance >= 0 by { ZeroPoint(s, traces, items, 0, 1); }
    var k := LagPoint(s.advance, NestedComplex(s.paramBody));
    var total := k + 1;
    ZeroColumns(s, traces, items, total);
    var table := ZeroTable(s, traces, total);
    var buf := EncPoints(table, items, s.paramId, 0, total);
    AtSelf([], buf, []);
    assert [] + buf + [] == buf;
    if EveryTableDecodes(view, s, traces, items, filter) {
      assert Yields(DecodeSimple(view, filter, buf, 0, total, [], []), s, filter, table);
      LaggingTag(view, s, filter, buf, k, total);
      LaggedByte(s, traces, items, k, total, buf);
    }
  }

  lemma LaggingTag(view: FileView, s: Setup, filter: seq<TypeRef>, buf: Bytes, k: nat, total: nat)
    requires PointSetup(view) == Ok(s) && k < total && DecodeSimple(view, filter, buf, 0, total, [], []).Ok?
    ensures var q := k * (8 + Consumed(s.paramBody) + s.advance);
            0 <= q && q + 4 <= |buf| && buf[q + 3] == TAG_SWEEP_VALUE
  {
    hide PointSetup, NewColumns, DecodePoints, DecodeSimple, Resize, Consumed;
    SimpleStarts(view, filter, buf, 0, total, []);
    FreshSimple(view, filter, buf, 0, total, []);
    var st := State(Resize([], total, InitValue(s.paramBody)).value, NewColumns(view.types, filter, total).value, 0);
    PointTag(s, filter, buf, 0, 0, k, total, st);
  }

  /** Where the lagging cursor looks for a tag there is a zero. */
  lemma {:induction false} LaggedByte(s: Setup, traces: Children, items: seq<Item>, k: nat, total: nat, buf: Bytes)
    requires Laid(s, traces, items) && KnownTypes(s, traces) && s.window.None? && 0 < k < total
    requires buf == EncPoints(ZeroTable(s, traces, total), items, s.paramId, 0, total)
    requires var lag := k * (8 * NestedComplex(s.paramBody));
             s.advance + 3 < lag <= s.advance + 3 + 8 * NestedComplex(s.paramBody)
    ensures var q := k * (8 + Consumed(s.paramBody) + s.advance);
            0 <= q + 3 < |buf| ==> buf[q + 3] == 0
  {
    hide At, Laid, KnownTypes, EncPoints, ZeroTable, EncPoint, NestedComplex, ComplexLeaves, DataSize, AllZero;
    var table, size, c := ZeroTable(s, traces, total), DataSize(s.paramBody), NestedComplex(s.paramBody);
    var stride := 8 + size + s.advance;
    forall m: nat | m < total ensures |EncPoint(table, items, s.paramId, m)| == stride && s.advance >= 0 {
      ZeroPoint(s, traces, items, m, total);
    }
    ZeroPoint(s, traces, items, k - 1, total);
    ComplexWithinSize(s.paramBody);
    NestedAtMost(s.paramBody);
    AtSelf([], buf, []);
    assert [] + buf + [] == buf;
    PointAt(items, table, s.paramId, 0, k - 1, total, stride, buf, 0);
    LaggedPlace(k, size, c, s.advance);
    var offset := 3 + stride - k * (8 * c);
    ZeroAt(buf, (k - 1) * stride, EncPoint(table, items, s.paramId, k - 1), size, offset);
  }

  lemma LaggedPlace(k: nat, size: nat, c: nat, advance: nat)
    requires k > 0 && 16 * c <= size && advance + 3 < k * (8 * c) <= advance + 3 + 8 * c
    ensures var stride, lag := 8 + size + advance, k * (8 * c);
            && k * (8 + (size - 8 * c) + advance) == (k - 1) * stride + (stride - lag)
            && 8 <= 3 + stride - lag < 8 + size
  {
    var stride := 8 + size + advance;
    assert k * (8 + (size - 8 * c) + advance) == k * stride - k * (8 * c);
    assert k * stride == (k - 1) * stride + stride;
  }

  lemma ZeroAt(buf: Bytes, p: int, bytes: Bytes, size: nat, offset: int)
    requires At(buf, p, bytes) && 8 <= offset < 8 + size <= |bytes| && AllZero(bytes[8..8 + size])
    ensures p + offset < |buf| && buf[p + offset] == 0
  {
    assert bytes[8..8 + size][offset - 8] == bytes[offset];
    assert buf[p..p + |bytes|][offset] == buf[p + offset];
  }

  /** Every table written point by point is read back exactly when the parameter has no complex number inside a
      struct and every selected trace is legible. */
  lemma SimpleReadBackExactly(view: FileView, s: Setup, traces: Children, items: seq<Item>, filter: seq<TypeRef>)
    requires PointSetup(view) == Ok(s) && IsInt32(s.paramId) && Laid(s, traces, items)
    requires KnownTypes(s, traces) && Selects(s, traces, filter)
    ensures EveryTableDecodes(view, s, traces, items, filter) <==> ReadableRuns(s, filter, 1)
  {
    hide At, Laid, KnownTypes, Typed, Selects, PointSetup, Meanings, TableColumns, EncPoints, DecodeSimple, Yields,
         NestedComplex, Readable;
    if ReadableRuns(s, filter, 1) {
      forall table, total: nat, buf, p
        | Typed(s, traces, table, total) && At(buf, p, EncPoints(table, items, s.paramId, 0, total))
        ensures Yields(DecodeSimple(view, filter, buf, p, total, [], []), s, filter, table)
      {
        SimpleTableRoundTrip(view, s, traces, items, table, total, filter, buf, p);
        FromState(DecodeSimple(view, filter, buf, p, total, [], []), s, filter, table,
                  p + |EncPoints(table, items, s.paramId, 0, total)|);
      }
    } else if NestedComplex(s.paramBody) > 0 {
      LaggingPoints(view, s, traces, items, filter);
    } else {
      UnreadablePoint(view, s, traces, items, filter);
    }
  }
}
