/** Consecutive values of one type: a column, or the part of it in a point or window. */
module Runs {
  import opened Base
  import opened Words
  import opened Types
  import opened Values
  import opened Legibility
  import opened Sweeps

  function Meanings(data: seq<Datum>, body: TypeBody): (r: Cells)
    ensures |r| == |data|
  {
    seq(|data|, k requires 0 <= k < |data| => Meaning(data[k], body))
  }

  /** A column of `n` values of a type. */
  ghost predicate ColumnTyped(data: seq<Datum>, body: TypeBody, n: nat) {
    |data| == n && forall k :: 0 <= k < n ==> HasType(data[k], body)
  }

  // ---------------------------------------------------------------- decoding a run

  lemma {:induction false} RunSize(data: seq<Datum>, body: TypeBody)
    requires forall k :: 0 <= k < |data| ==> HasType(data[k], body)
    ensures |EncItems(data)| == |data| * DataSize(body)
  {
    hide HasType, DataSize, EncDatum;
    if data != [] {
      assert HasType(data[0], body);
      EncDatumSize(data[0], body);
      assert forall k :: 0 <= k < |data[1..]| ==> data[1..][k] == data[k + 1];
      RunSize(data[1..], body);
      assert |data| * DataSize(body) == DataSize(body) + |data[1..]| * DataSize(body);
    }
  }

  lemma TypedSlice(data: seq<Datum>, body: TypeBody, total: nat, i: nat, n: nat)
    requires ColumnTyped(data, body, total) && i + n <= total
    ensures |data| == total && |data[i..i + n]| == n && ColumnTyped(data[i..i + n], body, n)
    ensures Meanings(data[i..i + n], body) == Meanings(data, body)[i..i + n]
  {
    hide HasType, Meaning, NestedComplex;
    var run := data[i..i + n];
    assert forall k :: 0 <= k < n ==> run[k] == data[i + k];
  }

  lemma CellsStep(col: Cells, at: nat, v: Value, rest: Cells)
    requires at + 1 + |rest| <= |col|
    ensures col[at := v][..at + 1] + rest + col[at := v][at + 1 + |rest|..]
            == col[..at] + ([v] + rest) + col[at + 1 + |rest|..]
  {
  }

  lemma {:induction false} RunAt(data: seq<Datum>, body: TypeBody, buf: Bytes, p: int, col: Cells, at: nat)
    requires ColumnTyped(data, body, |data|) && NestedComplex(body) == 0
    requires At(buf, p, EncItems(data)) && at + |data| <= |col|
    ensures DecodeInto(body, buf, p, col, at, |data|)
         == Ok((col[..at] + Meanings(data, body) + col[at + |data|..], p + |EncItems(data)|))
    decreases |data|
  {
    hide At, DecodeData, Meanings, HasType, Meaning, EncDatum, DataSize, NestedComplex;
    if data == [] {
      EmptyRunAt(body, buf, p, col, at);
    } else {
      AtSplit(buf, p, EncDatum(data[0]), EncItems(data[1..]));
      assert HasType(data[0], body);
      DatumRoundTrip(data[0], body, buf, p);
      EncDatumSize(data[0], body);
      var v, q := Meaning(data[0], body), p + |EncDatum(data[0])|;
      assert forall k :: 0 <= k < |data[1..]| ==> data[1..][k] == data[k + 1];
      RunAt(data[1..], body, buf, q, col[at := v], at + 1);
      CellsStep(col, at, v, Meanings(data[1..], body));
      FirstMeaning(data, body);
    }
  }

  lemma {:induction false} FirstMeaning(data: seq<Datum>, body: TypeBody)
    requires data != []
    ensures Meanings(data, body) == [Meaning(data[0], body)] + Meanings(data[1..], body)
  {
    hide Meaning;
  }

  // ---------------------------------------------------------------- which runs are read back

  /** `n` consecutive values are read back: always without complex numbers inside structs, and otherwise only a
      single legible value, or values that are all the same. */
  predicate Readable(body: TypeBody, n: nat) {
    n == 0 || NestedComplex(body) == 0 || Constant(body) || (n == 1 && Legible(body))
  }

  /** Without complex numbers inside structs, or without surviving scalars, single values are legible. */
  lemma ReadableAlone(body: TypeBody)
    ensures NestedComplex(body) == 0 || Constant(body) ==> Legible(body)
  {
    if body.Struct? && NestedComplex(body) == 0 {
      WithoutComplex(body.fields);
    } else if Constant(body) {
      ConstantIsLegible(body.fields);
    }
  }

  lemma {:induction false} ConstantRunAt(data: seq<Datum>, body: TypeBody, buf: Bytes, p: int, col: Cells, at: nat)
    requires ColumnTyped(data, body, |data|) && Constant(body) && at + |data| <= |col|
    requires 0 <= p && p + |data| * DataSize(body) <= |buf|
    ensures DecodeInto(body, buf, p, col, at, |data|).Ok?
    ensures DecodeInto(body, buf, p, col, at, |data|).value.0 == col[..at] + Meanings(data, body) + col[at + |data|..]
    decreases |data|
  {
    hide HasType, Meaning, Meanings, DataSize, NestedComplex, DecodeFields, DecodeData, Constant;
    if data == [] {
      EmptyRunAt(body, buf, p, col, at);
    } else {
      var n := |data| - 1;
      assert |data| * DataSize(body) == DataSize(body) + n * DataSize(body);
      ConstantDatumAt(data[0], body, buf, p);
      var (v, q) := DecodeData(body, buf, p).value;
      assert forall k :: 0 <= k < n ==> data[1..][k] == data[k + 1];
      ConstantRunAt(data[1..], body, buf, q, col[at := v], at + 1);
      CellsStep(col, at, v, Meanings(data[1..], body));
      FirstMeaning(data, body);
    }
  }

  lemma {:induction false} ConstantDatumAt(d: Datum, body: TypeBody, buf: Bytes, p: int)
    requires HasType(d, body) && Constant(body) && 0 <= p && p + DataSize(body) <= |buf|
    ensures DecodeData(body, buf, p).Ok? && DecodeData(body, buf, p).value.0 == Meaning(d, body)
    ensures 0 <= DecodeData(body, buf, p).value.1 <= p + DataSize(body)
  {
    hide HasType, Meaning, DecodeFields, DataSize;
    ConstantDecodes(d, body, buf, p);
    FieldDecodes(body, buf, p);
  }

  /** A readable run fills its cells with the meanings of its data. */
  lemma {:induction false} ReadableRunAt(data: seq<Datum>, body: TypeBody, buf: Bytes, p: int, col: Cells, at: nat)
    requires ColumnTyped(data, body, |data|) && Readable(body, |data|)
    requires At(buf, p, EncItems(data)) && at + |data| <= |col|
    ensures DecodeInto(body, buf, p, col, at, |data|).Ok?
    ensures DecodeInto(body, buf, p, col, at, |data|).value.0 == col[..at] + Meanings(data, body) + col[at + |data|..]
  {
    hide At, ColumnTyped, Meanings, DecodeInto, NestedComplex, Constant, Legible;
    if NestedComplex(body) == 0 {
      RunAt(data, body, buf, p, col, at);
    } else if data == [] {
      EmptyRunAt(body, buf, p, col, at);
    } else if Constant(body) {
      TypedSize(data, body);
      AtInside(buf, p, EncItems(data));
      ConstantRunAt(data, body, buf, p, col, at);
    } else {
      SingleRunAt(data, body, buf, p, col, at);
    }
  }

  lemma {:induction false} TypedSize(data: seq<Datum>, body: TypeBody)
    requires ColumnTyped(data, body, |data|)
    ensures |EncItems(data)| == |data| * DataSize(body)
  {
    RunSize(data, body);
  }

  lemma {:induction false} EmptyRunAt(body: TypeBody, buf: Bytes, p: int, col: Cells, at: nat)
    requires at <= |col|
    ensures DecodeInto(body, buf, p, col, at, 0) == Ok((col, p)) && Meanings([], body) == []
    ensures col[..at] + [] + col[at..] == col
  {
  }

  lemma {:induction false} SingleRunAt(data: seq<Datum>, body: TypeBody, buf: Bytes, p: int, col: Cells, at: nat)
    requires |data| == 1 && ColumnTyped(data, body, 1) && Legible(body)
    requires At(buf, p, EncItems(data)) && at + 1 <= |col|
    ensures DecodeInto(body, buf, p, col, at, 1).Ok?
    ensures DecodeInto(body, buf, p, col, at, 1).value.0 == col[..at] + Meanings(data, body) + col[at + 1..]
  {
    hide At, HasType, Meaning, Legible, DecodeData, EncDatum;
    assert EncItems(data) == EncDatum(data[0]) + EncItems(data[1..]);
    AtSplit(buf, p, EncDatum(data[0]), EncItems(data[1..]));
    LegibleDecodes(data[0], body, buf, p);
    var (v, q) := DecodeData(body, buf, p).value;
    assert DecodeInto(body, buf, q, col[at := v], at + 1, 0) == Ok((col[at := v], q));
    assert Meanings(data, body) == [v];
  }

  // ---------------------------------------------------------------- unreadable runs

  /** Data of which a run that is not readable is decoded wrongly: in the first value, or in the second one, which
      is read where the first was expected to end. */
  function SpoiledRun(body: TypeBody, n: nat): (data: seq<Datum>)
    ensures ColumnTyped(data, body, n)
  {
    if n == 0 then []
    else if n > 1 && Legible(body) then ZeroRun(body, n)[1 := Marked(body)]
    else ZeroRun(body, n)[0 := Misplaced(body)]
  }

  function ZeroRun(body: TypeBody, n: nat): (data: seq<Datum>)
    ensures ColumnTyped(data, body, n)
  {
    seq(n, _ => ZeroDatum(body))
  }

  /** The cells of a decoded run, one by one. */
  lemma {:induction false} CellsBefore(body: TypeBody, buf: Bytes, p: int, col: Cells, at: nat, n: nat, k: nat)
    requires DecodeInto(body, buf, p, col, at, n).Ok? && k < at && k < |col|
    ensures DecodeInto(body, buf, p, col, at, n).value.0[k] == col[k]
    decreases n
  {
    hide DecodeData;
    if n > 0 {
      var (v, q) := DecodeData(body, buf, p).value;
      CellsBefore(body, buf, q, col[at := v], at + 1, n - 1, k);
    }
  }

  lemma {:induction false} FirstCells(body: TypeBody, buf: Bytes, p: int, col: Cells, n: nat)
    requires n > 0 && DecodeInto(body, buf, p, col, 0, n).Ok?
    ensures |DecodeInto(body, buf, p, col, 0, n).value.0| == |col| >= n
    ensures DecodeData(body, buf, p).Ok?
    ensures DecodeInto(body, buf, p, col, 0, n).value.0[0] == DecodeData(body, buf, p).value.0
    ensures n > 1 ==>
              var q := DecodeData(body, buf, p).value.1;
              && DecodeData(body, buf, q).Ok?
              && DecodeInto(body, buf, p, col, 0, n).value.0[1] == DecodeData(body, buf, q).value.0
  {
    hide DecodeData;
    var (v, q) := DecodeData(body, buf, p).value;
    var col' := col[0 := v];
    CellsBefore(body, buf, q, col', 1, n - 1, 0);
    if n > 1 {
      var (w, q2) := DecodeData(body, buf, q).value;
      assert DecodeInto(body, buf, q, col', 1, n - 1) == DecodeInto(body, buf, q2, col'[1 := w], 2, n - 2);
      CellsBefore(body, buf, q2, col'[1 := w], 2, n - 2, 1);
    }
  }

  lemma {:induction false} UnreadableRunAt(body: TypeBody, n: nat, buf: Bytes, p: int, col: Cells)
    requires !Readable(body, n) && At(buf, p, EncItems(SpoiledRun(body, n)))
    ensures DecodeInto(body, buf, p, col, 0, n).Ok? ==>
              DecodeInto(body, buf, p, col, 0, n).value.0 != Meanings(SpoiledRun(body, n), body)
  {
    hide At, Legible, Constant, NestedComplex, DecodeInto, DecodeData, Meaning, Misplaced, Marked, ZeroDatum, EncDatum,
         HasType;
    if DecodeInto(body, buf, p, col, 0, n).Ok? {
      var data := SpoiledRun(body, n);
      FirstCells(body, buf, p, col, n);
      assert EncItems(data) == EncDatum(data[0]) + EncItems(data[1..]);
      AtSplit(buf, p, EncDatum(data[0]), EncItems(data[1..]));
      if Legible(body) {
        assert EncItems(data[1..]) == EncDatum(data[1..][0]) + EncItems(data[1..][1..]);
        AtSplit(buf, p + |EncDatum(data[0])|, EncDatum(data[1]), EncItems(data[1..][1..]));
        ShiftedDatum(body, buf, p);
        assert Meanings(data, body)[1] == Meaning(Marked(body), body);
      } else {
        IllegibleMisread(body, buf, p);
        assert Meanings(data, body)[0] == Meaning(Misplaced(body), body);
      }
    }
  }

  /** Behind a value with a complex number inside a struct, the next one is read too early. */
  lemma {:induction false} ShiftedDatum(body: TypeBody, buf: Bytes, p: int)
    requires NestedComplex(body) > 0 && !Constant(body) && DecodeData(body, buf, p).Ok?
    requires At(buf, p, EncDatum(ZeroDatum(body))) && At(buf, p + |EncDatum(ZeroDatum(body))|, EncDatum(Marked(body)))
    ensures !ReadsBack(Marked(body), body, buf, DecodeData(body, buf, p).value.1)
  {
    hide At, DecodeFields, EncDatum, ZeroDatum, Marked, Constant, Meaning, DataSize, ComplexLeaves, ZerosIn;
    assert ZerosIn(buf, p, p) by { EmptyZeros(buf, p, EncDatum(ZeroDatum(body))); }
    ZeroFieldPassed(body, buf, p, p);
    var q := DecodeData(body, buf, p).value.1;
    ShiftedField(body, buf, q, p + DataSize(body));
  }

  lemma EmptyZeros(buf: Bytes, p: int, s: Bytes)
    requires At(buf, p, s)
    ensures ZerosIn(buf, p, p)
  {
  }
}
