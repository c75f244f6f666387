/** Laws of the two decoders that hold on every input: what the filter influences, lengths and positions. */
module SweepLaws {
  import opened Base
  import opened Words
  import opened Types
  import opened Values
  import opened Chunks
  import opened Sweeps

  // ---------------------------------------------------------------- independence of the filter

  ghost predicate Indexes(picks: seq<nat>, n: nat) {
    forall k :: 0 <= k < |picks| ==> picks[k] < n
  }

  /** The elements at the chosen positions, in that order and with repetitions. */
  function Pick<T>(xs: seq<T>, picks: seq<nat>): (r: seq<T>)
    requires forall k :: 0 <= k < |picks| ==> picks[k] < |xs|
    ensures |r| == |picks| && forall k :: 0 <= k < |picks| ==> r[k] == xs[picks[k]]
  {
    seq(|picks|, k requires 0 <= k < |picks| => xs[picks[k]])
  }

  function PickState(st: State, picks: seq<nat>): State
    requires forall k :: 0 <= k < |picks| ==> picks[k] < |st.cols|
  {
    State(st.params, Pick(st.cols, picks), st.pos)
  }

  /** The columns of a filter are filled independently of each other. */
  lemma {:induction false} FillColumnsEach(s: Setup, filter: seq<TypeRef>, buf: Bytes, base: int, i: nat, n: nat,
                                           cols: seq<Cells>)
    requires |filter| == |cols|
    ensures FillColumns(s, filter, buf, base, i, n, cols).Ok? <==>
            forall j :: 0 <= j < |filter| ==> FillColumn(s, filter[j], buf, base, i, n, cols[j]).Ok?
    ensures FillColumns(s, filter, buf, base, i, n, cols).Ok? ==>
            forall j :: 0 <= j < |filter| ==>
              FillColumn(s, filter[j], buf, base, i, n, cols[j])
                  == Ok(FillColumns(s, filter, buf, base, i, n, cols).value[j])
    decreases |filter|
  {
    hide FillColumn;
    if filter != [] {
      var rest, restCols := filter[1..], cols[1..];
      FillColumnsEach(s, rest, buf, base, i, n, restCols);
      assert forall j :: 0 <= j < |rest| ==> rest[j] == filter[j + 1] && restCols[j] == cols[j + 1];
      assert forall j :: 0 < j < |filter| ==> filter[j] == rest[j - 1] && cols[j] == restCols[j - 1];
    }
  }

  lemma {:induction false} FillColumnsPick(s: Setup, filter: seq<TypeRef>, buf: Bytes, base: int, i: nat, n: nat,
                                           cols: seq<Cells>, picks: seq<nat>)
    requires |filter| == |cols| && Indexes(picks, |filter|)
    requires FillColumns(s, filter, buf, base, i, n, cols).Ok?
    ensures FillColumns(s, Pick(filter, picks), buf, base, i, n, Pick(cols, picks))
         == Ok(Pick(FillColumns(s, filter, buf, base, i, n, cols).value, picks))
  {
    FillColumnsEach(s, filter, buf, base, i, n, cols);
    FillColumnsEach(s, Pick(filter, picks), buf, base, i, n, Pick(cols, picks));
    hide FillColumn, FillColumns;
    var all, some := FillColumns(s, filter, buf, base, i, n, cols),
                     FillColumns(s, Pick(filter, picks), buf, base, i, n, Pick(cols, picks));
    assert some.Ok?;
    assert some.value == Pick(all.value, picks);
  }

  lemma WindowPick(s: Setup, filter: seq<TypeRef>, buf: Bytes, i: nat, st: State, picks: seq<nat>)
    requires |filter| == |st.cols| && Indexes(picks, |filter|) && DecodeWindow(s, filter, buf, i, st).Ok?
    ensures var (next, n) := DecodeWindow(s, filter, buf, i, st).value;
            DecodeWindow(s, Pick(filter, picks), buf, i, PickState(st, picks)) == Ok((PickState(next, picks), n))
  {
    hide FillColumns, DecodeInto, GetInt, ParseTag, Resize;
    var word := GetInt(buf, st.pos + 4).value;
    var n := PointCount(word);
    var grown := Resize(st.params, |st.params| + n, InitValue(s.paramBody)).value;
    var (params, base) := DecodeInto(s.paramBody, buf, st.pos + 8, grown, |st.params|, n).value;
    FillColumnsPick(s, filter, buf, base, i, n, st.cols, picks);
  }

  lemma {:induction false} WindowsPick(s: Setup, filter: seq<TypeRef>, buf: Bytes, i: nat, total: int, st: State,
                                       picks: seq<nat>)
    requires |filter| == |st.cols| && Indexes(picks, |filter|) && DecodeWindows(s, filter, buf, i, total, st).Ok?
    ensures |DecodeWindows(s, filter, buf, i, total, st).value.cols| == |filter|
    ensures DecodeWindows(s, Pick(filter, picks), buf, i, total, PickState(st, picks))
         == Ok(PickState(DecodeWindows(s, filter, buf, i, total, st).value, picks))
    decreases total - i, Ahead(s, buf, st.pos)
  {
    hide DecodeWindow;
    if i < total {
      var (next, n) := DecodeWindow(s, filter, buf, i, st).value;
      WindowPick(s, filter, buf, i, st, picks);
      WindowsPick(s, filter, buf, i + n, total, next, picks);
    }
  }

  lemma {:induction false} NewColumnsEach(types: TypeTable, filter: seq<TypeRef>, n: int)
    ensures NewColumns(types, filter, n).Ok? <==>
            forall j :: 0 <= j < |filter| ==> LookupType(types, filter[j].typeId).Ok? && n >= 0
    ensures NewColumns(types, filter, n).Ok? ==>
            forall j :: 0 <= j < |filter| ==>
              Resize([], n, InitValue(LookupType(types, filter[j].typeId).value.body))
                  == Ok(NewColumns(types, filter, n).value[j])
    decreases |filter|
  {
    hide Resize, LookupType, InitValue;
    if filter != [] {
      var rest := filter[1..];
      NewColumnsEach(types, rest, n);
      assert forall j :: 0 <= j < |rest| ==> rest[j] == filter[j + 1];
      assert forall j :: 0 < j < |filter| ==> filter[j] == rest[j - 1];
    }
  }

  lemma {:induction false} NewColumnsPick(types: TypeTable, filter: seq<TypeRef>, n: int, picks: seq<nat>)
    requires Indexes(picks, |filter|) && NewColumns(types, filter, n).Ok?
    ensures NewColumns(types, Pick(filter, picks), n) == Ok(Pick(NewColumns(types, filter, n).value, picks))
  {
    NewColumnsEach(types, filter, n);
    NewColumnsEach(types, Pick(filter, picks), n);
    hide NewColumns, Resize, LookupType, InitValue;
    var all, some := NewColumns(types, filter, n), NewColumns(types, Pick(filter, picks), n);
    assert some.Ok?;
    assert some.value == Pick(all.value, picks);
  }

  /** Any selection from a filter, the empty one and single traces included, decodes to the same selection of
      columns, with the same parameters and the same end position. */
  lemma WindowedFilterIndependence(view: FileView, filter: seq<TypeRef>, buf: Bytes, p: int, total: int, params: Cells,
                                   picks: seq<nat>)
    requires Indexes(picks, |filter|) && DecodeWindowed(view, filter, buf, p, total, params).Ok?
    ensures |DecodeWindowed(view, filter, buf, p, total, params).value.cols| == |filter|
    ensures DecodeWindowed(view, Pick(filter, picks), buf, p, total, params)
         == Ok(PickState(DecodeWindowed(view, filter, buf, p, total, params).value, picks))
  {
    hide WindowedSetup, NewColumns, DecodeWindows;
    var s := WindowedSetup(view).value;
    NewColumnsPick(view.types, filter, total, picks);
    WindowsPick(s, filter, buf, 0, total, State(params, NewColumns(view.types, filter, total).value, p), picks);
  }

  lemma PointPick(s: Setup, filter: seq<TypeRef>, buf: Bytes, start: nat, i: nat, st: State, picks: seq<nat>)
    requires |filter| == |st.cols| && Indexes(picks, |filter|) && DecodePoint(s, filter, buf, start, i, st).Ok?
    ensures DecodePoint(s, Pick(filter, picks), buf, start, i, PickState(st, picks))
         == Ok(PickState(DecodePoint(s, filter, buf, start, i, st).value, picks))
  {
    hide FillColumns, DecodeInto, GetInt, ParseTag;
    var (params, base) := DecodeInto(s.paramBody, buf, st.pos + 8, st.params, start + i, 1).value;
    FillColumnsPick(s, filter, buf, base, i, 1, st.cols, picks);
  }

  lemma {:induction false} PointsPick(s: Setup, filter: seq<TypeRef>, buf: Bytes, start: nat, i: nat, total: int,
                                      st: State, picks: seq<nat>)
    requires |filter| == |st.cols| && Indexes(picks, |filter|) && DecodePoints(s, filter, buf, start, i, total, st).Ok?
    ensures |DecodePoints(s, filter, buf, start, i, total, st).value.cols| == |filter|
    ensures DecodePoints(s, Pick(filter, picks), buf, start, i, total, PickState(st, picks))
         == Ok(PickState(DecodePoints(s, filter, buf, start, i, total, st).value, picks))
    decreases total - i
  {
    hide DecodePoint;
    if i < total {
      PointPick(s, filter, buf, start, i, st, picks);
      PointsPick(s, filter, buf, start, i + 1, total, DecodePoint(s, filter, buf, start, i, st).value, picks);
    }
  }

  /** The same for values stored point by point, on a fresh object. */
  lemma SimpleFilterIndependence(view: FileView, filter: seq<TypeRef>, buf: Bytes, p: int, total: int, params: Cells,
                                 picks: seq<nat>)
    requires Indexes(picks, |filter|) && DecodeSimple(view, filter, buf, p, total, params, []).Ok?
    ensures |DecodeSimple(view, filter, buf, p, total, params, []).value.cols| == |filter|
    ensures DecodeSimple(view, Pick(filter, picks), buf, p, total, params, [])
         == Ok(PickState(DecodeSimple(view, filter, buf, p, total, params, []).value, picks))
  {
    hide PointSetup, NewColumns, DecodePoints, Resize;
    var s := PointSetup(view).value;
    var cols := NewColumns(view.types, filter, total).value;
    var grown := Resize(params, |params| + total, InitValue(s.paramBody)).value;
    NewColumnsPick(view.types, filter, total, picks);
    FreshSimple(view, filter, buf, p, total, params);
    FreshSimple(view, Pick(filter, picks), buf, p, total, params);
    PointsPick(s, filter, buf, |params|, 0, total, State(grown, cols, p), picks);
  }

  /** On a fresh object the columns are exactly those of the filter. */
  lemma {:induction false} FreshSimple(view: FileView, filter: seq<TypeRef>, buf: Bytes, p: int, total: int,
                                       params: Cells)
    requires NewColumns(view.types, filter, total).Ok? && PointSetup(view).Ok? && |params| + total >= 0
    ensures var s := PointSetup(view).value;
            var grown := Resize(params, |params| + total, InitValue(s.paramBody)).value;
            DecodeSimple(view, filter, buf, p, total, params, [])
            == DecodePoints(s, filter, buf, |params|, 0, total,
                            State(grown, NewColumns(view.types, filter, total).value, p))
  {
    hide PointSetup, NewColumns, Resize, DecodePoint;
    var cols := NewColumns(view.types, filter, total).value;
    assert ([] + cols)[..|filter|] == cols && ([] + cols)[|filter|..] == [];
    var s := PointSetup(view).value;
    var grown := Resize(params, |params| + total, InitValue(s.paramBody)).value;
    var r := DecodePoints(s, filter, buf, |params|, 0, total, State(grown, cols, p));
    if r.Ok? {
      assert r.value.cols + [] == r.value.cols;
    }
  }

  // ---------------------------------------------------------------- a filter succeeds when its traces do

  lemma WindowAll(s: Setup, filter: seq<TypeRef>, buf: Bytes, i: nat, st: State)
    requires |filter| == |st.cols|
    requires DecodeWindow(s, [], buf, i, PickState(st, [])).Ok?
    requires forall j :: 0 <= j < |filter| ==> DecodeWindow(s, [filter[j]], buf, i, PickState(st, [j])).Ok?
    ensures DecodeWindow(s, filter, buf, i, st).Ok?
  {
    hide FillColumn, FillColumns, DecodeInto, GetInt, ParseTag, Resize;
    var n := PointCount(GetInt(buf, st.pos + 4).value);
    var grown := Resize(st.params, |st.params| + n, InitValue(s.paramBody)).value;
    var (params, base) := DecodeInto(s.paramBody, buf, st.pos + 8, grown, |st.params|, n).value;
    forall j | 0 <= j < |filter| ensures FillColumn(s, filter[j], buf, base, i, n, st.cols[j]).Ok? {
      assert DecodeWindow(s, [filter[j]], buf, i, PickState(st, [j])).Ok?;
      FillColumnsEach(s, [filter[j]], buf, base, i, n, Pick(st.cols, [j]));
      assert [filter[j]][0] == filter[j] && Pick(st.cols, [j])[0] == st.cols[j];
    }
    FillColumnsEach(s, filter, buf, base, i, n, st.cols);
  }

  lemma {:induction false} WindowsAll(s: Setup, filter: seq<TypeRef>, buf: Bytes, i: nat, total: int, st: State)
    requires |filter| == |st.cols|
    requires DecodeWindows(s, [], buf, i, total, PickState(st, [])).Ok?
    requires forall j :: 0 <= j < |filter| ==> DecodeWindows(s, [filter[j]], buf, i, total, PickState(st, [j])).Ok?
    ensures DecodeWindows(s, filter, buf, i, total, st).Ok?
    decreases total - i, Ahead(s, buf, st.pos)
  {
    hide DecodeWindow;
    if i < total {
      WindowAll(s, filter, buf, i, st);
      var (next, n) := DecodeWindow(s, filter, buf, i, st).value;
      WindowPick(s, filter, buf, i, st, []);
      assert Pick(filter, []) == [];
      forall j | 0 <= j < |filter| ensures DecodeWindows(s, [filter[j]], buf, i + n, total, PickState(next, [j])).Ok? {
        WindowPick(s, filter, buf, i, st, [j]);
        assert Pick(filter, [j]) == [filter[j]];
        assert DecodeWindows(s, [filter[j]], buf, i, total, PickState(st, [j])).Ok?;
      }
      WindowsAll(s, filter, buf, i + n, total, next);
    }
  }

  /** A windowed decode succeeds for a filter exactly when it succeeds for each of its traces alone (and for none). */
  lemma WindowedSucceedsExactly(view: FileView, filter: seq<TypeRef>, buf: Bytes, p: int, total: int, params: Cells)
    ensures DecodeWindowed(view, filter, buf, p, total, params).Ok? <==>
            && DecodeWindowed(view, [], buf, p, total, params).Ok?
            && forall j :: 0 <= j < |filter| ==> DecodeWindowed(view, [filter[j]], buf, p, total, params).Ok?
  {
    hide WindowedSetup, NewColumns, DecodeWindows;
    if DecodeWindowed(view, filter, buf, p, total, params).Ok? {
      WindowedFilterIndependence(view, filter, buf, p, total, params, []);
      assert Pick(filter, []) == [];
      forall j | 0 <= j < |filter| ensures DecodeWindowed(view, [filter[j]], buf, p, total, params).Ok? {
        WindowedFilterIndependence(view, filter, buf, p, total, params, [j]);
        assert Pick(filter, [j]) == [filter[j]];
      }
    } else if && DecodeWindowed(view, [], buf, p, total, params).Ok?
              && forall j :: 0 <= j < |filter| ==> DecodeWindowed(view, [filter[j]], buf, p, total, params).Ok? {
      SinglesGiveAll(view, filter, buf, p, total, params);
    }
  }

  lemma SinglesGiveAll(view: FileView, filter: seq<TypeRef>, buf: Bytes, p: int, total: int, params: Cells)
    requires DecodeWindowed(view, [], buf, p, total, params).Ok?
    requires forall j :: 0 <= j < |filter| ==> DecodeWindowed(view, [filter[j]], buf, p, total, params).Ok?
    ensures DecodeWindowed(view, filter, buf, p, total, params).Ok?
  {
    hide WindowedSetup, NewColumns, DecodeWindows;
    var s := WindowedSetup(view).value;
    forall j | 0 <= j < |filter| ensures LookupType(view.types, filter[j].typeId).Ok? && total >= 0 {
      assert DecodeWindowed(view, [filter[j]], buf, p, total, params).Ok?;
      NewColumnsEach(view.types, [filter[j]], total);
      assert [filter[j]][0] == filter[j];
    }
    NewColumnsEach(view.types, filter, total);
    var st := State(params, NewColumns(view.types, filter, total).value, p);
    NewColumnsPick(view.types, filter, total, []);
    assert Pick(filter, []) == [];
    forall j | 0 <= j < |filter| ensures DecodeWindows(s, [filter[j]], buf, 0, total, PickState(st, [j])).Ok? {
      NewColumnsPick(view.types, filter, total, [j]);
      assert Pick(filter, [j]) == [filter[j]];
      assert DecodeWindowed(view, [filter[j]], buf, p, total, params).Ok?;
    }
    WindowsAll(s, filter, buf, 0, total, st);
  }

  lemma PointAll(s: Setup, filter: seq<TypeRef>, buf: Bytes, start: nat, i: nat, st: State)
    requires |filter| == |st.cols|
    requires DecodePoint(s, [], buf, start, i, PickState(st, [])).Ok?
    requires forall j :: 0 <= j < |filter| ==> DecodePoint(s, [filter[j]], buf, start, i, PickState(st, [j])).Ok?
    ensures DecodePoint(s, filter, buf, start, i, st).Ok?
  {
    hide FillColumn, FillColumns, DecodeInto, GetInt, ParseTag;
    var (params, base) := DecodeInto(s.paramBody, buf, st.pos + 8, st.params, start + i, 1).value;
    forall j | 0 <= j < |filter| ensures FillColumn(s, filter[j], buf, base, i, 1, st.cols[j]).Ok? {
      assert DecodePoint(s, [filter[j]], buf, start, i, PickState(st, [j])).Ok?;
      FillColumnsEach(s, [filter[j]], buf, base, i, 1, Pick(st.cols, [j]));
      assert [filter[j]][0] == filter[j] && Pick(st.cols, [j])[0] == st.cols[j];
    }
    FillColumnsEach(s, filter, buf, base, i, 1, st.cols);
  }

  lemma {:induction false} PointsAll(s: Setup, filter: seq<TypeRef>, buf: Bytes, start: nat, i: nat, total: int,
                                     st: State)
    requires |filter| == |st.cols|
    requires DecodePoints(s, [], buf, start, i, total, PickState(st, [])).Ok?
    requires forall j :: 0 <= j < |filter| ==>
             DecodePoints(s, [filter[j]], buf, start, i, total, PickState(st, [j])).Ok?
    ensures DecodePoints(s, filter, buf, start, i, total, st).Ok?
    decreases total - i
  {
    hide DecodePoint;
    if i < total {
      PointAll(s, filter, buf, start, i, st);
      var next := DecodePoint(s, filter, buf, start, i, st).value;
      PointPick(s, filter, buf, start, i, st, []);
      assert Pick(filter, []) == [];
      forall j | 0 <= j < |filter|
        ensures DecodePoints(s, [filter[j]], buf, start, i + 1, total, PickState(next, [j])).Ok?
      {
        PointPick(s, filter, buf, start, i, st, [j]);
        assert Pick(filter, [j]) == [filter[j]];
        assert DecodePoints(s, [filter[j]], buf, start, i, total, PickState(st, [j])).Ok?;
      }
      PointsAll(s, filter, buf, start, i + 1, total, next);
    }
  }

  /** Point by point, too, a decode on a fresh object succeeds for a filter exactly when it succeeds for each of its
      traces alone (and for none). */
  lemma SimpleSucceedsExactly(view: FileView, filter: seq<TypeRef>, buf: Bytes, p: int, total: int, params: Cells)
    ensures DecodeSimple(view, filter, buf, p, total, params, []).Ok? <==>
            && DecodeSimple(view, [], buf, p, total, params, []).Ok?
            && forall j :: 0 <= j < |filter| ==> DecodeSimple(view, [filter[j]], buf, p, total, params, []).Ok?
  {
    hide DecodeSimple;
    if DecodeSimple(view, filter, buf, p, total, params, []).Ok? {
      SimpleFilterIndependence(view, filter, buf, p, total, params, []);
      assert Pick(filter, []) == [];
      forall j | 0 <= j < |filter| ensures DecodeSimple(view, [filter[j]], buf, p, total, params, []).Ok? {
        SimpleFilterIndependence(view, filter, buf, p, total, params, [j]);
        assert Pick(filter, [j]) == [filter[j]];
      }
    } else if && DecodeSimple(view, [], buf, p, total, params, []).Ok?
              && forall j :: 0 <= j < |filter| ==> DecodeSimple(view, [filter[j]], buf, p, total, params, []).Ok? {
      SimpleSinglesGiveAll(view, filter, buf, p, total, params);
    }
  }

  /** What a decode on a fresh object has met before its first point. */
  lemma {:induction false} SimpleStarts(view: FileView, filter: seq<TypeRef>, buf: Bytes, p: int, total: int,
                                        params: Cells)
    requires DecodeSimple(view, filter, buf, p, total, params, []).Ok?
    ensures NewColumns(view.types, filter, total).Ok? && PointSetup(view).Ok? && |params| + total >= 0
  {
    hide NewColumns, PointSetup, DecodePoints;
  }

  lemma SimpleSinglesGiveAll(view: FileView, filter: seq<TypeRef>, buf: Bytes, p: int, total: int, params: Cells)
    requires DecodeSimple(view, [], buf, p, total, params, []).Ok?
    requires forall j :: 0 <= j < |filter| ==> DecodeSimple(view, [filter[j]], buf, p, total, params, []).Ok?
    ensures DecodeSimple(view, filter, buf, p, total, params, []).Ok?
  {
    hide PointSetup, NewColumns, DecodePoints, DecodeSimple, Resize;
    SimpleStarts(view, [], buf, p, total, params);
    forall j | 0 <= j < |filter| ensures LookupType(view.types, filter[j].typeId).Ok? && total >= 0 {
      SimpleStarts(view, [filter[j]], buf, p, total, params);
      NewColumnsEach(view.types, [filter[j]], total);
      assert [filter[j]][0] == filter[j];
    }
    NewColumnsEach(view.types, filter, total);
    var s, cols := PointSetup(view).value, NewColumns(view.types, filter, total).value;
    var st := State(Resize(params, |params| + total, InitValue(s.paramBody)).value, cols, p);
    FreshSimple(view, filter, buf, p, total, params);
    FreshSimple(view, [], buf, p, total, params);
    NewColumnsPick(view.types, filter, total, []);
    assert Pick(filter, []) == [];
    forall j | 0 <= j < |filter| ensures DecodePoints(s, [filter[j]], buf, |params|, 0, total, PickState(st, [j])).Ok? {
      NewColumnsPick(view.types, filter, total, [j]);
      assert Pick(filter, [j]) == [filter[j]];
      FreshSimple(view, [filter[j]], buf, p, total, params);
    }
    PointsAll(s, filter, buf, |params|, 0, total, st);
  }

  // ---------------------------------------------------------------- lengths

  lemma WindowLengths(s: Setup, filter: seq<TypeRef>, buf: Bytes, i: nat, st: State)
    requires |filter| == |st.cols| && DecodeWindow(s, filter, buf, i, st).Ok?
    ensures var (next, n) := DecodeWindow(s, filter, buf, i, st).value;
            && n >= 0 && |next.params| == |st.params| + n
            && (forall j :: 0 <= j < |filter| ==> |next.cols[j]| == |st.cols[j]| && (n > 0 ==> i + n <= |st.cols[j]|))
  {
    hide FillColumns, DecodeInto, GetInt, ParseTag, Resize;
  }

  lemma {:induction false} WindowsLengths(s: Setup, filter: seq<TypeRef>, buf: Bytes, i: nat, total: nat, st: State)
    requires |filter| == |st.cols| && DecodeWindows(s, filter, buf, i, total, st).Ok?
    requires |st.params| == i && forall j :: 0 <= j < |filter| ==> |st.cols[j]| == total
    requires filter != [] ==> i <= total
    ensures var end := DecodeWindows(s, filter, buf, i, total, st).value;
            && |end.cols| == |filter| && (forall j :: 0 <= j < |filter| ==> |end.cols[j]| == total)
            && |end.params| >= total && (filter != [] ==> |end.params| == total)
    decreases total - i, Ahead(s, buf, st.pos)
  {
    hide DecodeWindow;
    if i < total {
      WindowLengths(s, filter, buf, i, st);
      var (next, n) := DecodeWindow(s, filter, buf, i, st).value;
      assert filter != [] ==> |st.cols[0]| == total;
      WindowsLengths(s, filter, buf, i + n, total, next);
    }
  }

  /** Whatever the point counts in the file say, a successful windowed decode of some trace on a fresh object
      yields vectors of exactly `total` cells; without a trace there are at least `total` parameters. */
  lemma WindowedLengths(view: FileView, filter: seq<TypeRef>, buf: Bytes, p: int, total: int)
    requires DecodeWindowed(view, filter, buf, p, total, []).Ok?
    ensures var end := DecodeWindowed(view, filter, buf, p, total, []).value;
            && |end.cols| == |filter| && (forall j :: 0 <= j < |filter| ==> |end.cols[j]| == total)
            && |end.params| >= total && (filter != [] ==> |end.params| == total)
  {
    hide WindowedSetup, NewColumns, DecodeWindow;
    NewColumnsEach(view.types, filter, total);
    assert filter != [] ==> LookupType(view.types, filter[0].typeId).Ok? && total >= 0;
    if total >= 0 {
      var s := WindowedSetup(view).value;
      WindowsLengths(s, filter, buf, 0, total, State([], NewColumns(view.types, filter, total).value, p));
    }
  }

  // ---------------------------------------------------------------- positions

  /** Bytes of a parameter as the decoder consumes them. */
  function Consumed(body: TypeBody): int {
    DataSize(body) - 8 * NestedComplex(body)
  }

  lemma PointAdvance(s: Setup, filter: seq<TypeRef>, buf: Bytes, start: nat, i: nat, st: State)
    requires |filter| == |st.cols| && DecodePoint(s, filter, buf, start, i, st).Ok?
    ensures DecodePoint(s, filter, buf, start, i, st).value.pos == st.pos + 8 + Consumed(s.paramBody) + s.advance
  {
    hide FillColumns, GetInt, DecodeData, DataSize, NestedComplex;
    DataConsumes(s.paramBody, buf, st.pos + 8);
  }

  lemma {:induction false} PointsAdvance(s: Setup, filter: seq<TypeRef>, buf: Bytes, start: nat, i: nat, total: nat,
                                         st: State)
    requires i <= total && |filter| == |st.cols| && DecodePoints(s, filter, buf, start, i, total, st).Ok?
    ensures DecodePoints(s, filter, buf, start, i, total, st).value.pos
         == st.pos + (total - i) * (8 + Consumed(s.paramBody) + s.advance)
    decreases total - i
  {
    hide DecodePoint, Consumed;
    if i < total {
      PointAdvance(s, filter, buf, start, i, st);
      PointsAdvance(s, filter, buf, start, i + 1, total, DecodePoint(s, filter, buf, start, i, st).value);
      var step := 8 + Consumed(s.paramBody) + s.advance;
      assert (total - i) * step == step + (total - i - 1) * step;
    }
  }

  /** Point by point, every successful decode moves by the same stride, whatever traces are selected: two header
      words, the parameter, and the size the offset map was built with. */
  lemma SimpleAdvance(view: FileView, filter: seq<TypeRef>, buf: Bytes, p: int, total: nat, params: Cells)
    requires DecodeSimple(view, filter, buf, p, total, params, []).Ok?
    ensures PointSetup(view).Ok?
    ensures DecodeSimple(view, filter, buf, p, total, params, []).value.pos
         == p + total * (8 + Consumed(PointSetup(view).value.paramBody) + view.valueSize)
  {
    hide NewColumns, DecodePoints, Resize, Consumed;
    FreshSimple(view, filter, buf, p, total, params);
    var s := PointSetup(view).value;
    var grown := Resize(params, |params| + total, InitValue(s.paramBody)).value;
    PointsAdvance(s, filter, buf, |params|, 0, total, State(grown, NewColumns(view.types, filter, total).value, p));
  }

  // ---------------------------------------------------------------- objects that are used again

  /** A decoded run does not depend on the cells in front of it, and leaves them alone. */
  lemma {:induction false} IntoBehind(body: TypeBody, buf: Bytes, p: int, before: Cells, col: Cells, at: nat, n: nat)
    ensures DecodeInto(body, buf, p, before + col, |before| + at, n)
         == match DecodeInto(body, buf, p, col, at, n)
            case Ok((filled, q)) => Ok((before + filled, q))
            case Err(e) => Err(e)
    decreases n
  {
    hide DecodeData;
    if n > 0 && at < |col| && DecodeData(body, buf, p).Ok? {
      var (v, q) := DecodeData(body, buf, p).value;
      IntoBehind(body, buf, q, before, col[at := v], at + 1, n - 1);
      assert (before + col)[|before| + at := v] == before + col[at := v];
    }
  }

  /** A state with more parameters in front. */
  function Behind(before: Cells, r: Result<State>): Result<State> {
    match r
    case Ok(st) => Ok(State(before + st.params, st.cols, st.pos))
    case Err(e) => Err(e)
  }

  lemma GrownBehind(before: Cells, params: Cells, n: nat, init: Value)
    ensures Resize(before + params, |before + params| + n, init).value
            == before + Resize(params, |params| + n, init).value
  {
  }

  lemma WindowBehind(s: Setup, filter: seq<TypeRef>, buf: Bytes, i: nat, st: State, before: Cells)
    requires |filter| == |st.cols|
    ensures DecodeWindow(s, filter, buf, i, State(before + st.params, st.cols, st.pos))
         == match DecodeWindow(s, filter, buf, i, st)
            case Ok((next, n)) => Ok((State(before + next.params, next.cols, next.pos), n))
            case Err(e) => Err(e)
  {
    hide GetInt, ParseTag, DecodeInto, FillColumns, Resize;
    if ParseTag(buf, st.pos, Some(TAG_SWEEP_VALUE)).Ok? && GetInt(buf, st.pos + 4).Ok? {
      var n := PointCount(GetInt(buf, st.pos + 4).value);
      var grown := Resize(st.params, |st.params| + n, InitValue(s.paramBody)).value;
      GrownBehind(before, st.params, n, InitValue(s.paramBody));
      IntoBehind(s.paramBody, buf, st.pos + 8, before, grown, |st.params|, n);
    }
  }

  lemma {:induction false} WindowsBehind(s: Setup, filter: seq<TypeRef>, buf: Bytes, i: nat, total: int, st: State,
                                         before: Cells)
    requires |filter| == |st.cols|
    ensures DecodeWindows(s, filter, buf, i, total, State(before + st.params, st.cols, st.pos))
         == Behind(before, DecodeWindows(s, filter, buf, i, total, st))
    decreases total - i, Ahead(s, buf, st.pos)
  {
    hide DecodeWindow;
    if i < total {
      WindowBehind(s, filter, buf, i, st, before);
      if DecodeWindow(s, filter, buf, i, st).Ok? {
        var (next, n) := DecodeWindow(s, filter, buf, i, st).value;
        if !(n == 0 && next.pos == st.pos) {
          WindowsBehind(s, filter, buf, i + n, total, next, before);
        }
      }
    }
  }

  /** A windowed decode on an object that holds parameters appends to them; its columns are replaced. */
  lemma WindowedAppends(view: FileView, filter: seq<TypeRef>, buf: Bytes, p: int, total: int, params: Cells)
    ensures DecodeWindowed(view, filter, buf, p, total, params)
         == Behind(params, DecodeWindowed(view, filter, buf, p, total, []))
  {
    hide WindowedSetup, NewColumns, DecodeWindows;
    if WindowedSetup(view).Ok? && NewColumns(view.types, filter, total).Ok? {
      assert params + [] == params;
      var st := State([], NewColumns(view.types, filter, total).value, p);
      WindowsBehind(WindowedSetup(view).value, filter, buf, 0, total, st, params);
    }
  }

  lemma PointBehind(s: Setup, filter: seq<TypeRef>, buf: Bytes, i: nat, st: State, before: Cells)
    requires |filter| == |st.cols|
    ensures DecodePoint(s, filter, buf, |before|, i, State(before + st.params, st.cols, st.pos))
         == Behind(before, DecodePoint(s, filter, buf, 0, i, st))
  {
    hide GetInt, ParseTag, DecodeInto, FillColumns;
    IntoBehind(s.paramBody, buf, st.pos + 8, before, st.params, i, 1);
  }

  lemma {:induction false} PointsBehind(s: Setup, filter: seq<TypeRef>, buf: Bytes, i: nat, total: int, st: State,
                                        before: Cells)
    requires |filter| == |st.cols|
    ensures DecodePoints(s, filter, buf, |before|, i, total, State(before + st.params, st.cols, st.pos))
         == Behind(before, DecodePoints(s, filter, buf, 0, i, total, st))
    decreases total - i
  {
    hide DecodePoint;
    if i < total {
      PointBehind(s, filter, buf, i, st, before);
      if DecodePoint(s, filter, buf, 0, i, st).Ok? {
        PointsBehind(s, filter, buf, i + 1, total, DecodePoint(s, filter, buf, 0, i, st).value, before);
      }
    }
  }

  /** Point by point, a decode on an object without columns appends to its parameters as well. */
  lemma SimpleAppends(view: FileView, filter: seq<TypeRef>, buf: Bytes, p: int, total: nat, params: Cells)
    ensures DecodeSimple(view, filter, buf, p, total, params, [])
         == Behind(params, DecodeSimple(view, filter, buf, p, total, [], []))
  {
    hide PointSetup, NewColumns, DecodePoints, Resize, DecodeSimple;
    if NewColumns(view.types, filter, total).Ok? && PointSetup(view).Ok? {
      var s := PointSetup(view).value;
      assert params + [] == params;
      GrownBehind(params, [], total, InitValue(s.paramBody));
      FreshSimple(view, filter, buf, p, total, params);
      FreshSimple(view, filter, buf, p, total, []);
      var grown := Resize([], total, InitValue(s.paramBody)).value;
      PointsBehind(s, filter, buf, 0, total, State(grown, NewColumns(view.types, filter, total).value, p), params);
    } else {
      SimpleRefused(view, filter, buf, p, total, params);
    }
  }

  lemma {:induction false} SimpleRefused(view: FileView, filter: seq<TypeRef>, buf: Bytes, p: int, total: nat,
                                         params: Cells)
    requires NewColumns(view.types, filter, total).Err? || PointSetup(view).Err?
    ensures DecodeSimple(view, filter, buf, p, total, params, []) == DecodeSimple(view, filter, buf, p, total, [], [])
    ensures DecodeSimple(view, filter, buf, p, total, params, []).Err?
  {
    hide PointSetup, NewColumns, DecodePoints, Resize;
  }

  /** Unlike in windows, columns of an earlier decode stay in front, where they are overwritten, and the new columns
      keep the zeros they were made of. */
  lemma SimpleKeepsColumns(view: FileView, filter: seq<TypeRef>, buf: Bytes, p: int, total: nat, params: Cells,
                           data: seq<Cells>)
    requires |data| >= |filter| && DecodeSimple(view, filter, buf, p, total, params, data).Ok?
    ensures var cols := DecodeSimple(view, filter, buf, p, total, params, data).value.cols;
            && |cols| == |data| + |filter| && cols[|filter|..|data|] == data[|filter|..]
            && forall j :: 0 <= j < |filter| ==>
                 && LookupType(view.types, filter[j].typeId).Ok?
                 && cols[|data| + j] == seq(total, _ => Zero(LookupType(view.types, filter[j].typeId).value.body))
  {
    hide PointSetup, NewColumns, DecodePoints, Resize, LookupType, InitValue, Zero;
    var news := NewColumns(view.types, filter, total).value;
    NewColumnsEach(view.types, filter, total);
    var all := data + news;
    var st := DecodeSimple(view, filter, buf, p, total, params, data).value;
    var s := PointSetup(view).value;
    var grown := Resize(params, |params| + total, InitValue(s.paramBody)).value;
    PointsKeepCount(s, filter, buf, |params|, 0, total, State(grown, all[..|filter|], p));
    assert st.cols[|filter|..] == all[|filter|..];
    forall j | 0 <= j < |filter|
      ensures st.cols[|data| + j] == seq(total, _ => Zero(LookupType(view.types, filter[j].typeId).value.body))
    {
      assert st.cols[|data| + j] == all[|data| + j] == news[j];
      NewCells(LookupType(view.types, filter[j].typeId).value.body, total);
    }
  }

  /** What stands in a cell that nothing was written to. */
  function Zero(body: TypeBody): Value {
    match body
    case Int8 => Int8Value(0)
    case Int32 => Int32Value(0)
    case Double => DoubleValue(0)
    case ComplexDouble => ComplexValue(0, 0)
    case Struct(_) => StructValue(map[])
  }

  lemma NewCells(body: TypeBody, n: nat)
    ensures Resize([], n, InitValue(body)).value == seq(n, _ => Zero(body))
  {
  }

  lemma {:induction false} PointsKeepCount(s: Setup, filter: seq<TypeRef>, buf: Bytes, start: nat, i: nat, total: int,
                                           st: State)
    requires |filter| == |st.cols| && DecodePoints(s, filter, buf, start, i, total, st).Ok?
    ensures |DecodePoints(s, filter, buf, start, i, total, st).value.cols| == |filter|
    decreases total - i
  {
    hide DecodePoint;
    if i < total {
      PointsKeepCount(s, filter, buf, start, i + 1, total, DecodePoint(s, filter, buf, start, i, st).value);
    }
  }
}
