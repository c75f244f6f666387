/** The two decoders of swept values. */
module Sweeps {
  import opened Base
  import opened Words
  import opened Properties
  import opened Types
  import opened Values
  import opened Chunks
  import opened Containers
  import opened Offsets

  const TAG_SWEEP_VALUE := 16
  const WINDOW_SIZE := Ascii("PSF window size")
  const TRACES := Ascii("PSF traces")
  const SWEEP_POINTS := Ascii("PSF sweep points")

  type Cells = seq<Value>

  /** What the decoders read from the rest of the file. */
  datatype FileView = FileView(
    header: seq<Property>, types: TypeTable, sweeps: Children, offsets: map<int, int>, valueSize: int)

  /** The sweep parameter is the first sweep; an empty section has none. */
  function FirstSweep(sweeps: Children): Result<TypeRef> {
    if sweeps != [] && sweeps[0].RefChunk? then Ok(sweeps[0].ref) else Err(Undefined)
  }

  /** The value a vector of some type is filled with when it grows. */
  function InitValue(body: TypeBody): Value {
    match body
    case Int8 => Int8Value(0)
    case Int32 => Int32Value(0)
    case Double => DoubleValue(0)
    case ComplexDouble => ComplexValue(0, 0)
    case Struct(_) => StructValue(map[])
  }

  /** `PSFVectorT::resize`; a negative length is a huge one. */
  function Resize(col: Cells, n: int, init: Value): (r: Result<Cells>)
    ensures r.Ok? <==> n >= 0
    ensures r.Ok? ==> |r.value| == n
    ensures r.Ok? && n >= |col| ==> r.value[..|col|] == col
  {
    if n < 0 then Err(BadLength)
    else if n <= |col| then Ok(col[..n])
    else Ok(col + seq(n - |col|, _ => init))
  }

  // ---------------------------------------------------------------- runs of values

  /** `n` consecutive values are decoded into the cells of a column from `at` on; every cell is bounds-checked. */
  function DecodeInto(body: TypeBody, buf: Bytes, p: int, col: Cells, at: nat, n: nat): (r: Parsed<Cells>)
    ensures r.Ok? ==> |r.value.0| == |col|
    ensures r.Ok? && n > 0 ==> at + n <= |col|
    decreases n
  {
    if n == 0 then Ok((col, p))
    else if at >= |col| then Err(OutOfRange)
    else
      var (v, q) :- DecodeData(body, buf, p);
      DecodeInto(body, buf, q, col[at := v], at + 1, n - 1)
  }

  method DeserializeInto(body: TypeBody, buf: Bytes, p: int, column: Cells, at: nat, n: nat)
    returns (r: Result<(Cells, int)>)
    ensures r == DecodeInto(body, buf, p, column, at, n)
  {
    hide DecodeData;
    var col, q := column, p;
    for k := 0 to n
      invariant DecodeInto(body, buf, p, column, at, n) == DecodeInto(body, buf, q, col, at + k, n - k)
    {
      if at + k >= |col| { return Err(OutOfRange); }
      var v :- DeserializeData(body, buf, q);
      col, q := col[at + k := v.0], v.1;
    }
    return Ok((col, q));
  }

  // ---------------------------------------------------------------- the columns of a filter

  /** The constants of a decoding run. `window` is the window size, if values are windowed; `advance` is the
      distance from the first slot of a point or window to the end of it. */
  datatype Setup = Setup(types: TypeTable, offsets: map<int, int>, paramId: int, paramBody: TypeBody,
                         window: Option<int>, advance: int)

  /** Where the `n` values of a trace start: at its slot, or right-aligned in it when values are windowed. */
  function SlotStart(s: Setup, ref: TypeRef, base: int, n: nat): Parsed<TypeBody> {
    var def :- LookupType(s.types, ref.typeId);
    if ref.id !in s.offsets then Err(Undefined)
    else
      Ok((def.body, base + s.offsets[ref.id] + if s.window.Some? then s.window.value - n * DataSize(def.body) else 0))
  }

  function FillColumn(s: Setup, ref: TypeRef, buf: Bytes, base: int, i: nat, n: nat, col: Cells): (r: Result<Cells>)
    ensures r.Ok? ==> |r.value| == |col| && (n > 0 ==> i + n <= |col|)
  {
    var (body, q) :- SlotStart(s, ref, base, n);
    var (filled, _) :- DecodeInto(body, buf, q, col, i, n);
    Ok(filled)
  }

  function FillColumns(s: Setup, filter: seq<TypeRef>, buf: Bytes, base: int, i: nat, n: nat, cols: seq<Cells>)
    : (r: Result<seq<Cells>>)
    requires |filter| == |cols|
    ensures r.Ok? ==> |r.value| == |cols|
    ensures r.Ok? ==> forall j :: 0 <= j < |cols| ==> |r.value[j]| == |cols[j]| && (n > 0 ==> i + n <= |cols[j]|)
  {
    if filter == [] then Ok([])
    else
      var col :- FillColumn(s, filter[0], buf, base, i, n, cols[0]);
      var rest :- FillColumns(s, filter[1..], buf, base, i, n, cols[1..]);
      Ok([col] + rest)
  }

  function NewColumns(types: TypeTable, filter: seq<TypeRef>, n: int): (r: Result<seq<Cells>>)
    ensures r.Ok? ==> |r.value| == |filter| && forall j :: 0 <= j < |filter| ==> n == |r.value[j]|
  {
    if filter == [] then Ok([])
    else
      var def :- LookupType(types, filter[0].typeId);
      var col :- Resize([], n, InitValue(def.body));
      var rest :- NewColumns(types, filter[1..], n);
      Ok([col] + rest)
  }

  /** Parameter cells, one column per trace of the filter, and the position reached. */
  datatype State = State(params: Cells, cols: seq<Cells>, pos: int)

  // ---------------------------------------------------------------- windows

  /** The low half of a window's second word is its number of points. */
  function PointCount(word: int): (n: nat)
    ensures n < 65536
  {
    word % 65536
  }

  /** One window: its tag, its point count, the parameters, and the selected columns. */
  function DecodeWindow(s: Setup, filter: seq<TypeRef>, buf: Bytes, i: nat, st: State): (r: Parsed<State>)
    requires |filter| == |st.cols|
    ensures r.Ok? ==> 0 <= st.pos && st.pos + 4 <= |buf| && r.value.1 >= 0 && |r.value.0.cols| == |filter|
    ensures r.Ok? && r.value.1 == 0 ==> r.value.0.pos == st.pos + 8 + s.advance
  {
    var p :- ParseTag(buf, st.pos, Some(TAG_SWEEP_VALUE));
    var word :- GetInt(buf, p);
    var n := PointCount(word);
    var grown :- Resize(st.params, |st.params| + n, InitValue(s.paramBody));
    var (params, base) :- DecodeInto(s.paramBody, buf, p + 4, grown, |st.params|, n);
    var cols :- FillColumns(s, filter, buf, base, i, n, st.cols);
    Ok((State(params, cols, base + s.advance), n))
  }

  /** Bytes ahead of the cursor in the direction in which empty windows move it; a negative stride moves it back. */
  function Ahead(s: Setup, buf: Bytes, pos: int): int {
    if 8 + s.advance > 0 then |buf| - pos else pos
  }

  /** Windows are decoded until `total` points are reached. An empty window that leaves the cursor where it was
      is an error here; the source reads it again and again. */
  function DecodeWindows(s: Setup, filter: seq<TypeRef>, buf: Bytes, i: nat, total: int, st: State): Result<State>
    requires |filter| == |st.cols|
    decreases total - i, Ahead(s, buf, st.pos)
  {
    if i >= total then Ok(st)
    else
      var (next, n) :- DecodeWindow(s, filter, buf, i, st);
      if n == 0 && next.pos == st.pos then Err(NoProgress)
      else DecodeWindows(s, filter, buf, i + n, total, next)
  }

  function WindowedSetup(view: FileView): Result<Setup> {
    var windowSize :- FindInt(view.header, WINDOW_SIZE);
    var ntraces :- FindInt(view.header, TRACES);
    var param :- FirstSweep(view.sweeps);
    var def :- LookupType(view.types, param.typeId);
    Ok(Setup(view.types, view.offsets, param.id, def.body, Some(windowSize), ntraces * windowSize))
  }

  /** What `SweepValueWindowed::deserialize` computes on an object that already holds the parameters `params`. */
  function DecodeWindowed(view: FileView, filter: seq<TypeRef>, buf: Bytes, p: int, total: int,
                          params: Cells): Result<State>
  {
    var s :- WindowedSetup(view);
    var cols :- NewColumns(view.types, filter, total);
    DecodeWindows(s, filter, buf, 0, total, State(params, cols, p))
  }

  // ---------------------------------------------------------------- points

  /** One point: its tag, the parameter's identifier and value, and the selected columns. */
  function DecodePoint(s: Setup, filter: seq<TypeRef>, buf: Bytes, start: nat, i: nat, st: State): (r: Result<State>)
    requires |filter| == |st.cols|
    ensures r.Ok? ==> |r.value.cols| == |filter|
  {
    var p :- ParseTag(buf, st.pos, Some(TAG_SWEEP_VALUE));
    var id :- GetInt(buf, p);
    if id != s.paramId then Err(AssertionFailed)
    else
      var (params, base) :- DecodeInto(s.paramBody, buf, p + 4, st.params, start + i, 1);
      var cols :- FillColumns(s, filter, buf, base, i, 1, st.cols);
      Ok(State(params, cols, base + s.advance))
  }

  function DecodePoints(s: Setup, filter: seq<TypeRef>, buf: Bytes, start: nat, i: nat, total: int,
                        st: State): Result<State>
    requires |filter| == |st.cols|
    decreases total - i
  {
    if i >= total then Ok(st)
    else
      var next :- DecodePoint(s, filter, buf, start, i, st);
      DecodePoints(s, filter, buf, start, i + 1, total, next)
  }

  function PointSetup(view: FileView): Result<Setup> {
    var param :- FirstSweep(view.sweeps);
    var def :- LookupType(view.types, param.typeId);
    Ok(Setup(view.types, view.offsets, param.id, def.body, None, view.valueSize))
  }

  /** What `SweepValueSimple::deserialize` computes on an object that already holds parameters and columns:
      the new columns are added behind the old ones, and the first columns are written. */
  function DecodeSimple(view: FileView, filter: seq<TypeRef>, buf: Bytes, p: int, total: int, params: Cells,
                        data: seq<Cells>)
    : Result<State>
  {
    var cols :- NewColumns(view.types, filter, total);
    var s :- PointSetup(view);
    var grown :- Resize(params, |params| + total, InitValue(s.paramBody));
    var all := data + cols;
    var st :- DecodePoints(s, filter, buf, |params|, 0, total, State(grown, all[..|filter|], p));
    Ok(State(st.params, st.cols + all[|filter|..], st.pos))
  }

  // ---------------------------------------------------------------- the objects

  class SweepValue {
    var paramValues: Option<Cells>
    var data: seq<Cells>

    constructor ()
      ensures paramValues == None && data == []
    {
      paramValues, data := None, [];
    }

    function Params(): Cells
      reads this
    {
      if paramValues.Some? then paramValues.value else []
    }

    /** Fills the data columns selected by a filter from one point or window. */
    method FillData(s: Setup, filter: seq<TypeRef>, buf: Bytes, base: int, i: nat, n: nat) returns (r: Result<()>)
      requires |filter| <= |data|
      modifies this`data
      ensures match FillColumns(s, filter, buf, base, i, n, old(data)[..|filter|])
              case Ok(cols) => r == Ok(()) && data == cols + old(data)[|filter|..]
              case Err(e) => r == Err(e)
    {
      hide FillColumn, FillColumns, Join, ColumnsFrom, Replaced;
      ghost var before, others := data[..|filter|], data[|filter|..];
      ghost var done: seq<Cells> := [];
      FillStart(s, filter, buf, base, i, n, data, before, others);
      var j := 0;
      while j < |filter|
        invariant 0 <= j <= |filter| == |before| && |done| == j
        invariant data == Replaced(done, before, others)
        invariant FillColumns(s, filter, buf, base, i, n, before)
                  == Join(done, ColumnsFrom(s, filter, buf, base, i, n, before, j))
      {
        NextCell(done, before, others);
        var col := DeserializeColumn(s, filter[j], buf, base, i, n, data[j]);
        FillColumnsStep(s, filter, buf, base, i, n, before, done, j);
        if col.Err? { return Err(col.error); }
        data := data[j := col.value];
        done := done + [col.value];
        j := j + 1;
      }
      FillEnd(s, filter, buf, base, i, n, before, done, others);
      return Ok(());
    }

    /** `SweepValueWindowed::deserialize`. */
    method DeserializeWindowed(view: FileView, filter: seq<TypeRef>, buf: Bytes, p: int, total: int)
      returns (r: Result<int>)
      modifies this
      ensures match DecodeWindowed(view, filter, buf, p, total, old(Params()))
              case Ok(st) => r == Ok(st.pos - p) && paramValues == Some(st.params) && data == st.cols
              case Err(e) => r == Err(e)
    {
      hide WindowedSetup, NewColumns, DecodeWindow;
      var s :- WindowedSetup(view);
      var cols :- NewColumns(view.types, filter, total);
      paramValues, data := Some(Params()), cols;
      ghost var first := State(Params(), data, p);
      var q, i := p, 0;
      while i < total
        invariant 0 <= i && |data| == |filter| && paramValues.Some?
        invariant DecodeWindows(s, filter, buf, 0, total, first)
               == DecodeWindows(s, filter, buf, i, total, State(paramValues.value, data, q))
        decreases total - i, Ahead(s, buf, q)
      {
        var before := q;
        var n;
        n, q := DeserializeWindow(s, filter, buf, i, q);
        if n.Err? { return Err(n.error); }
        if n.value == 0 && q == before { return Err(NoProgress); }
        i := i + n.value;
      }
      return Ok(q - p);
    }

    /** The body of the loop over windows. */
    method DeserializeWindow(s: Setup, filter: seq<TypeRef>, buf: Bytes, i: nat, p: int)
      returns (r: Result<int>, q: int)
      requires |filter| == |data| && paramValues.Some?
      modifies this
      ensures paramValues.Some?
      ensures match DecodeWindow(s, filter, buf, i, State(old(paramValues).value, old(data), p))
              case Ok((st, n)) => r == Ok(n) && q == st.pos && paramValues.value == st.params && data == st.cols
              case Err(e) => r == Err(e)
    {
      hide FillColumns, DecodeInto, GetInt;
      q := p;
      var tag := ParseTag(buf, p, Some(TAG_SWEEP_VALUE));
      if tag.Err? { return Err(tag.error), q; }
      var word := GetInt(buf, tag.value);
      if word.Err? { return Err(word.error), q; }
      var n := PointCount(word.value);
      var start := |paramValues.value|;
      var grown := Resize(paramValues.value, start + n, InitValue(s.paramBody));
      var params := DeserializeInto(s.paramBody, buf, tag.value + 4, grown.value, start, n);
      if params.Err? { return Err(params.error), q; }
      paramValues := Some(params.value.0);
      assert data[..|filter|] == data && data[|filter|..] == [];
      var filled := FillData(s, filter, buf, params.value.1, i, n);
      if filled.Err? { return Err(filled.error), q; }
      assert forall cols: seq<Cells> :: cols + [] == cols;
      return Ok(n), params.value.1 + s.advance;
    }

    /** `SweepValueSimple::deserialize`. */
    method DeserializeSimple(view: FileView, filter: seq<TypeRef>, buf: Bytes, p: int, total: int)
      returns (r: Result<int>)
      modifies this
      ensures match DecodeSimple(view, filter, buf, p, total, old(Params()), old(data))
              case Ok(st) => r == Ok(st.pos - p) && paramValues == Some(st.params) && data == st.cols
              case Err(e) => r == Err(e)
    {
      hide NewColumns, PointSetup, DecodePoint;
      var cols :- NewColumns(view.types, filter, total);
      data := data + cols;
      var s :- PointSetup(view);
      var start := |Params()|;
      var grown :- Resize(Params(), start + total, InitValue(s.paramBody));
      paramValues := Some(grown);
      ghost var first := State(grown, data[..|filter|], p);
      ghost var others := data[|filter|..];
      assert data == data[..|filter|] + others;
      var q, i := p, 0;
      while i < total
        invariant 0 <= i && |filter| <= |data| && paramValues.Some?
        invariant data[|filter|..] == others
        invariant DecodePoints(s, filter, buf, start, 0, total, first)
               == DecodePoints(s, filter, buf, start, i, total, State(paramValues.value, data[..|filter|], q))
      {
        var moved;
        moved, q := DeserializePoint(s, filter, buf, start, i, q);
        if moved.Err? { return Err(moved.error); }
        i := i + 1;
      }
      assert data == data[..|filter|] + others;
      return Ok(q - p);
    }

    /** The body of the loop over points. */
    method DeserializePoint(s: Setup, filter: seq<TypeRef>, buf: Bytes, start: nat, i: nat, p: int)
      returns (r: Result<()>, q: int)
      requires |filter| <= |data| && paramValues.Some?
      modifies this
      ensures paramValues.Some?
      ensures match DecodePoint(s, filter, buf, start, i, State(old(paramValues).value, old(data)[..|filter|], p))
              case Ok(st) =>
                && r == Ok(()) && q == st.pos && paramValues.value == st.params && |filter| <= |data|
                && data[..|filter|] == st.cols && data[|filter|..] == old(data)[|filter|..]
              case Err(e) => r == Err(e)
    {
      hide FillColumns, DecodeInto, GetInt;
      q := p;
      var tag := ParseTag(buf, p, Some(TAG_SWEEP_VALUE));
      if tag.Err? { return Err(tag.error), q; }
      var id := GetInt(buf, tag.value);
      if id.Err? { return Err(id.error), q; }
      if id.value != s.paramId { return Err(AssertionFailed), q; }
      var params := DeserializeInto(s.paramBody, buf, tag.value + 4, paramValues.value, start + i, 1);
      if params.Err? { return Err(params.error), q; }
      paramValues := Some(params.value.0);
      ghost var before := data;
      var filled := FillData(s, filter, buf, params.value.1, i, 1);
      if filled.Err? { return Err(filled.error), q; }
      ghost var cols := FillColumns(s, filter, buf, params.value.1, i, 1, before[..|filter|]).value;
      assert data[..|filter|] == cols && data[|filter|..] == before[|filter|..];
      return Ok(()), params.value.1 + s.advance;
    }
  }

  /** One trace of the filter: the pointer into its slot and the copying of `n` values. */
  method DeserializeColumn(s: Setup, ref: TypeRef, buf: Bytes, base: int, i: nat, n: nat, col: Cells)
    returns (r: Result<Cells>)
    ensures r == FillColumn(s, ref, buf, base, i, n, col)
  {
    hide DecodeInto;
    var slot :- SlotStart(s, ref, base, n);
    var filled := DeserializeInto(slot.0, buf, slot.1, col, i, n);
    return if filled.Ok? then Ok(filled.value.0) else Err(filled.error);
  }

  // ---------------------------------------------------------------- the loop over a filter

  /** What is still to be decoded for the traces from `j` on. */
  function ColumnsFrom(s: Setup, filter: seq<TypeRef>, buf: Bytes, base: int, i: nat, n: nat, cols: seq<Cells>, j: nat)
    : Result<seq<Cells>>
    requires j <= |filter| == |cols|
  {
    FillColumns(s, filter[j..], buf, base, i, n, cols[j..])
  }

  /** The columns when the first ones have been replaced. */
  function Replaced(done: seq<Cells>, before: seq<Cells>, others: seq<Cells>): seq<Cells>
    requires |done| <= |before|
  {
    done + before[|done|..] + others
  }

  lemma {:induction false} FillStart(s: Setup, filter: seq<TypeRef>, buf: Bytes, base: int, i: nat, n: nat,
                                     data: seq<Cells>, before: seq<Cells>, others: seq<Cells>)
    requires |filter| <= |data| && before == data[..|filter|] && others == data[|filter|..]
    ensures data == Replaced([], before, others)
    ensures FillColumns(s, filter, buf, base, i, n, before)
            == Join([], ColumnsFrom(s, filter, buf, base, i, n, before, 0))
  {
    hide FillColumns, Join;
    assert filter[0..] == filter && before[0..] == before;
    JoinEnds([], FillColumns(s, filter, buf, base, i, n, before));
  }

  lemma FillColumnsStep(s: Setup, filter: seq<TypeRef>, buf: Bytes, base: int, i: nat, n: nat, cols: seq<Cells>,
                        done: seq<Cells>, j: nat)
    requires j < |filter| == |cols|
    ensures Join(done, ColumnsFrom(s, filter, buf, base, i, n, cols, j))
         == match FillColumn(s, filter[j], buf, base, i, n, cols[j])
            case Ok(col) => Join(done + [col], ColumnsFrom(s, filter, buf, base, i, n, cols, j + 1))
            case Err(e) => Err(e)
  {
    hide FillColumn, Join;
    assert filter[j..][1..] == filter[j + 1..] && cols[j..][1..] == cols[j + 1..];
    var rest := ColumnsFrom(s, filter, buf, base, i, n, cols, j + 1);
    match FillColumn(s, filter[j], buf, base, i, n, cols[j])
    case Ok(col) =>
      JoinStep(done, [col], rest);
      FirstJoined(col, rest);
    case Err(e) => JoinError(done, e);
  }

  lemma FirstJoined(col: Cells, rest: Result<seq<Cells>>)
    ensures Join([col], rest) == match rest case Ok(cols) => Ok([col] + cols) case Err(e) => Err(e)
  {
  }

  lemma NextCell(done: seq<Cells>, before: seq<Cells>, others: seq<Cells>)
    requires |done| < |before|
    ensures |Replaced(done, before, others)| == |before| + |others|
    ensures Replaced(done, before, others)[|done|] == before[|done|]
    ensures forall col :: Replaced(done, before, others)[|done| := col] == Replaced(done + [col], before, others)
  {
  }

  lemma FillEnd(s: Setup, filter: seq<TypeRef>, buf: Bytes, base: int, i: nat, n: nat, before: seq<Cells>,
                done: seq<Cells>, others: seq<Cells>)
    requires |filter| == |before| == |done|
    ensures Replaced(done, before, others) == done + others
    ensures Join(done, ColumnsFrom(s, filter, buf, base, i, n, before, |filter|)) == Ok(done)
  {
    JoinEnds(done, Ok([]));
  }
}
