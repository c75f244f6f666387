/** Type-directed decoding of values. */
module Values {
  import opened Base
  import opened Words
  import opened Types

  /** A decoded value. A complex number is two 64-bit patterns; a struct maps field names to values. */
  datatype Value =
    | Int8Value(n: int)
    | Int32Value(n: int)
    | DoubleValue(bits: int)
    | ComplexValue(re: int, im: int)
    | StructValue(members: map<Bytes, Value>)

  // ---------------------------------------------------------------- decoding

  /** Reading a value whose definition is not a field of a struct. */
  function DecodeData(body: TypeBody, buf: Bytes, p: int): Parsed<Value> {
    match body
    case Int8 => var n :- GetInt8(buf, p); Ok((Int8Value(n), p + 4))
    case Int32 => var n :- GetInt(buf, p); Ok((Int32Value(n), p + 4))
    case Double => var bits :- GetBits(buf, p); Ok((DoubleValue(bits), p + 8))
    case ComplexDouble =>
      var re :- GetBits(buf, p);
      var im :- GetBits(buf, p + 8);
      Ok((ComplexValue(re, im), p + 16))
    case Struct(fields) =>
      var (members, q) :- DecodeFields(fields, map[], buf, p);
      Ok((StructValue(members), q))
  }

  /** Reading a field of a struct. Unlike `DecodeData`, a complex field reads its real part only. */
  function DecodeScalar(body: TypeBody, buf: Bytes, p: int): Parsed<Value>
    decreases body, 1
  {
    match body
    case Int8 => var n :- GetInt8(buf, p); Ok((Int8Value(n), p + 4))
    case Int32 => var n :- GetInt(buf, p); Ok((Int32Value(n), p + 4))
    case Double => var bits :- GetBits(buf, p); Ok((DoubleValue(bits), p + 8))
    case ComplexDouble => var re :- GetBits(buf, p); Ok((ComplexValue(re, 0), p + 8))
    case Struct(fields) =>
      var (members, q) :- DecodeFields(fields, map[], buf, p);
      Ok((StructValue(members), q))
  }

  function DecodeFields(fields: seq<TypeDef>, members: map<Bytes, Value>, buf: Bytes, p: int): Parsed<map<Bytes, Value>>
    decreases fields, 0
  {
    if fields == [] then Ok((members, p))
    else
      var (v, q) :- DecodeScalar(fields[0].body, buf, p);
      DecodeFields(fields[1..], members[fields[0].name := v], buf, q)
  }

  /** `DataTypeDef::deserialize_data`. */
  method DeserializeData(body: TypeBody, buf: Bytes, p: int) returns (r: Result<(Value, int)>)
    ensures r == DecodeData(body, buf, p)
  {
    if body.Struct? {
      var members := DeserializeStruct(body.fields, buf, p);
      r := match members
           case Ok((m, q)) => Ok((StructValue(m), q))
           case Err(e) => Err(e);
    } else {
      r := DecodeData(body, buf, p);
    }
  }

  /** `Struct::deserialize` on an empty struct: one assignment to the member map per field definition. */
  method DeserializeStruct(fields: seq<TypeDef>, buf: Bytes, p: int) returns (r: Result<(map<Bytes, Value>, int)>)
    ensures r == DecodeFields(fields, map[], buf, p)
    decreases fields, 0
  {
    hide DecodeScalar;
    var me: map<Bytes, Value> := map[];
    var q, i := p, 0;
    while i < |fields|
      invariant 0 <= i <= |fields|
      invariant DecodeFields(fields, map[], buf, p) == DecodeFields(fields[i..], me, buf, q)
    {
      var item :- DeserializeScalar(fields[i].body, buf, q);
      assert fields[i..][0] == fields[i] && fields[i..][1..] == fields[i + 1..];
      me, q, i := me[fields[i].name := item.0], item.1, i + 1;
    }
    return Ok((me, q));
  }

  /** `PSFScalarT<T>::deserialize` for the scalar a field definition creates. */
  method DeserializeScalar(body: TypeBody, buf: Bytes, p: int) returns (r: Result<(Value, int)>)
    ensures r == DecodeScalar(body, buf, p)
    decreases body, 1
  {
    if body.Struct? {
      var members := DeserializeStruct(body.fields, buf, p);
      r := match members
           case Ok((m, q)) => Ok((StructValue(m), q))
           case Err(e) => Err(e);
    } else {
      r := DecodeScalar(body, buf, p);
    }
  }

  // ---------------------------------------------------------------- bytes consumed

  /** Complex leaves at or below a field of a struct. */
  function ComplexLeaves(body: TypeBody): nat {
    match body
    case ComplexDouble => 1
    case Struct(fields) => FieldComplexLeaves(fields)
    case _ => 0
  }

  function FieldComplexLeaves(fields: seq<TypeDef>): nat {
    if fields == [] then 0 else ComplexLeaves(fields[0].body) + FieldComplexLeaves(fields[1..])
  }

  /** Complex leaves that sit inside a struct. */
  function NestedComplex(body: TypeBody): nat {
    if body.Struct? then ComplexLeaves(body) else 0
  }

  /** Every decoded value falls short of its promised size by exactly 8 bytes per complex leaf inside a struct. */
  lemma {:induction false} DataConsumes(body: TypeBody, buf: Bytes, p: int)
    requires DecodeData(body, buf, p).Ok?
    ensures DecodeData(body, buf, p).value.1 == p + DataSize(body) - 8 * NestedComplex(body)
  {
    hide GetInt, GetInt8, GetBits;
    if body.Struct? {
      FieldsConsume(body.fields, map[], buf, p);
    }
  }

  lemma {:induction false} ScalarConsumes(body: TypeBody, buf: Bytes, p: int)
    requires DecodeScalar(body, buf, p).Ok?
    ensures DecodeScalar(body, buf, p).value.1 == p + DataSize(body) - 8 * ComplexLeaves(body)
    decreases body, 1
  {
    hide GetInt, GetInt8, GetBits;
    if body.Struct? {
      FieldsConsume(body.fields, map[], buf, p);
    }
  }

  lemma {:induction false} FieldsConsume(fields: seq<TypeDef>, members: map<Bytes, Value>, buf: Bytes, p: int)
    requires DecodeFields(fields, members, buf, p).Ok?
    ensures DecodeFields(fields, members, buf, p).value.1 == p + FieldsSize(fields) - 8 * FieldComplexLeaves(fields)
    decreases fields, 0
  {
    hide DecodeScalar, DataSize, ComplexLeaves;
    if fields != [] {
      ScalarConsumes(fields[0].body, buf, p);
      var (v, q) := DecodeScalar(fields[0].body, buf, p).value;
      FieldsConsume(fields[1..], members[fields[0].name := v], buf, q);
    }
  }

  lemma {:induction false} ComplexWithinSize(body: TypeBody)
    ensures 16 * ComplexLeaves(body) <= DataSize(body)
  {
    if body.Struct? {
      FieldComplexWithinSize(body.fields);
    }
  }

  lemma {:induction false} FieldComplexWithinSize(fields: seq<TypeDef>)
    ensures 16 * FieldComplexLeaves(fields) <= FieldsSize(fields)
  {
    if fields != [] {
      ComplexWithinSize(fields[0].body);
      FieldComplexWithinSize(fields[1..]);
    }
  }

  // ---------------------------------------------------------------- encoding

  /** The data of one value as a file holds it: the fields of a struct in order, repeated names included, and a whole
      word for an 8-bit integer, of which only the low byte counts. */
  datatype Datum =
    | Int8Datum(word: int)
    | Int32Datum(n: int)
    | DoubleDatum(bits: int)
    | ComplexDatum(re: int, im: int)
    | StructDatum(items: seq<Datum>)

  predicate HasType(d: Datum, body: TypeBody)
    decreases d
  {
    match (d, body)
    case (Int8Datum(word), Int8) => IsInt32(word)
    case (Int32Datum(n), Int32) => IsInt32(n)
    case (DoubleDatum(bits), Double) => IsBits64(bits)
    case (ComplexDatum(re, im), ComplexDouble) => IsBits64(re) && IsBits64(im)
    case (StructDatum(items), Struct(fields)) => HaveTypes(items, fields)
    case _ => false
  }

  predicate HaveTypes(items: seq<Datum>, fields: seq<TypeDef>)
    decreases items
  {
    |items| == |fields|
    && (items == [] || (HasType(items[0], fields[0].body) && HaveTypes(items[1..], fields[1..])))
  }

  /** The value a datum stands for; of fields with the same name the last one counts. */
  function Meaning(d: Datum, body: TypeBody): Value
    decreases d
  {
    match d
    case Int8Datum(word) => Int8Value(LowByte(word))
    case Int32Datum(n) => Int32Value(n)
    case DoubleDatum(bits) => DoubleValue(bits)
    case ComplexDatum(re, im) => ComplexValue(re, im)
    case StructDatum(items) => StructValue(Members(items, if body.Struct? then body.fields else [], map[]))
  }

  function Members(items: seq<Datum>, fields: seq<TypeDef>, members: map<Bytes, Value>): map<Bytes, Value>
    decreases items
  {
    if items == [] || fields == [] then members
    else Members(items[1..], fields[1..], members[fields[0].name := Meaning(items[0], fields[0].body)])
  }

  function EncDatum(d: Datum): Bytes {
    match d
    case Int8Datum(word) => EncInt(word)
    case Int32Datum(n) => EncInt(n)
    case DoubleDatum(bits) => EncBits(bits)
    case ComplexDatum(re, im) => EncBits(re) + EncBits(im)
    case StructDatum(items) => EncItems(items)
  }

  function EncItems(items: seq<Datum>): Bytes {
    if items == [] then [] else EncDatum(items[0]) + EncItems(items[1..])
  }

  lemma {:induction false} EncDatumSize(d: Datum, body: TypeBody)
    requires HasType(d, body)
    ensures |EncDatum(d)| == DataSize(body)
    decreases d
  {
    if d.StructDatum? {
      EncItemsSize(d.items, body.fields);
    }
  }

  lemma {:induction false} EncItemsSize(items: seq<Datum>, fields: seq<TypeDef>)
    requires HaveTypes(items, fields)
    ensures |EncItems(items)| == FieldsSize(fields)
    decreases items
  {
    if items != [] {
      EncDatumSize(items[0], fields[0].body);
      EncItemsSize(items[1..], fields[1..]);
    }
  }

  lemma {:induction false} DatumRoundTrip(d: Datum, body: TypeBody, buf: Bytes, p: int)
    requires HasType(d, body) && NestedComplex(body) == 0 && At(buf, p, EncDatum(d))
    ensures DecodeData(body, buf, p) == Ok((Meaning(d, body), p + DataSize(body)))
  {
    hide At, GetInt, GetInt8, GetBits, EncInt, EncBits;
    match d
    case Int8Datum(word) => Int8At(buf, p, word);
    case Int32Datum(n) => IntAt(buf, p, n);
    case DoubleDatum(bits) => BitsAt(buf, p, bits);
    case ComplexDatum(re, im) =>
      AtSplit(buf, p, EncBits(re), EncBits(im));
      BitsAt(buf, p, re);
      BitsAt(buf, p + 8, im);
    case StructDatum(items) => ItemsRoundTrip(items, body.fields, map[], buf, p);
  }

  lemma {:induction false} ScalarRoundTrip(d: Datum, body: TypeBody, buf: Bytes, p: int)
    requires HasType(d, body) && ComplexLeaves(body) == 0 && At(buf, p, EncDatum(d))
    ensures DecodeScalar(body, buf, p) == Ok((Meaning(d, body), p + DataSize(body)))
    decreases d
  {
    hide At, GetInt, GetInt8, GetBits, EncInt, EncBits;
    match d
    case Int8Datum(word) => Int8At(buf, p, word);
    case Int32Datum(n) => IntAt(buf, p, n);
    case DoubleDatum(bits) => BitsAt(buf, p, bits);
    case ComplexDatum(re, im) =>
    case StructDatum(items) => ItemsRoundTrip(items, body.fields, map[], buf, p);
  }

  lemma {:induction false} ItemsRoundTrip(items: seq<Datum>, fields: seq<TypeDef>, members: map<Bytes, Value>,
                                          buf: Bytes, p: int)
    requires HaveTypes(items, fields) && FieldComplexLeaves(fields) == 0 && At(buf, p, EncItems(items))
    ensures DecodeFields(fields, members, buf, p) == Ok((Members(items, fields, members), p + FieldsSize(fields)))
    decreases items
  {
    hide At, DecodeScalar, EncDatum, DataSize, ComplexLeaves, HasType, Meaning;
    if items != [] {
      AtSplit(buf, p, EncDatum(items[0]), EncItems(items[1..]));
      EncDatumSize(items[0], fields[0].body);
      ScalarRoundTrip(items[0], fields[0].body, buf, p);
      ItemsRoundTrip(items[1..], fields[1..], members[fields[0].name := Meaning(items[0], fields[0].body)],
                     buf, p + DataSize(fields[0].body));
    }
  }

  // ---------------------------------------------------------------- when decoding inverts encoding

  function ZeroDatum(body: TypeBody): (d: Datum)
    ensures HasType(d, body)
  {
    match body
    case Int8 => Int8Datum(0)
    case Int32 => Int32Datum(0)
    case Double => DoubleDatum(0)
    case ComplexDouble => ComplexDatum(0, 0)
    case Struct(fields) => StructDatum(ZeroItems(fields))
  }

  function ZeroItems(fields: seq<TypeDef>): (items: seq<Datum>)
    ensures HaveTypes(items, fields)
  {
    if fields == [] then [] else [ZeroDatum(fields[0].body)] + ZeroItems(fields[1..])
  }

  ghost predicate DecodesAsWritten(d: Datum, body: TypeBody, buf: Bytes, p: int)
  {
    DecodeData(body, buf, p) == Ok((Meaning(d, body), p + |EncDatum(d)|))
  }

  /** Decoding inverts encoding for every datum of a type, wherever it is written,
      exactly when no struct of the type holds a complex number. */
  lemma {:induction false} RoundTripExactly(body: TypeBody)
    ensures NestedComplex(body) == 0 <==>
            forall d, buf, p :: HasType(d, body) && At(buf, p, EncDatum(d)) ==> DecodesAsWritten(d, body, buf, p)
  {
    hide DecodeData, EncDatum, Meaning, HasType, At, DataSize;
    if NestedComplex(body) == 0 {
      forall d, buf, p | HasType(d, body) && At(buf, p, EncDatum(d)) ensures DecodesAsWritten(d, body, buf, p) {
        DatumRoundTrip(d, body, buf, p);
        EncDatumSize(d, body);
      }
    } else {
      var d := ZeroDatum(body);
      var buf := EncDatum(d);
      AtSelf([], buf, []);
      assert [] + buf + [] == buf;
      EncDatumSize(d, body);
      if DecodesAsWritten(d, body, buf, 0) {
        DataConsumes(body, buf, 0);
      }
    }
  }

  /** A complex field of a struct keeps its real part and loses the imaginary one, where the next field is read. */
  lemma {:induction false} ComplexFieldDecodes(buf: Bytes, p: int, re: int, im: int)
    requires IsBits64(re) && IsBits64(im) && At(buf, p, EncDatum(ComplexDatum(re, im)))
    ensures DecodeScalar(ComplexDouble, buf, p) == Ok((ComplexValue(re, 0), p + 8))
    ensures GetInt(buf, p + 8) == Ok(Signed(im / WORD)) && GetBits(buf, p + 8) == Ok(im)
  {
    hide At, GetWord, GetBits, EncWord;
    AtSplit(buf, p, EncBits(re), EncBits(im));
    BitsAt(buf, p, re);
    BitsAt(buf, p + 8, im);
    AtSplit(buf, p + 8, EncWord(im / WORD), EncWord(im % WORD));
    WordAt(buf, p + 8, im / WORD);
  }

  const COMPLEX_THEN_INT := Struct([TypeDef(1, [122], ComplexDouble, []), TypeDef(2, [110], Int32, [])])

  function ComplexThenInt(re: int, im: int, n: int): Datum {
    StructDatum([ComplexDatum(re, im), Int32Datum(n)])
  }

  /** A struct with a complex field z = (re, im) and an integer field n: z is decoded to (re, 0), and n to the high
      half of im, whatever was written for it. */
  lemma ComplexFieldMisread(re: int, im: int, n: int)
    requires IsBits64(re) && IsBits64(im) && IsInt32(n)
    ensures var d := ComplexThenInt(re, im, n);
            && HasType(d, COMPLEX_THEN_INT)
            && Meaning(d, COMPLEX_THEN_INT) == StructValue(map[[122] := ComplexValue(re, im), [110] := Int32Value(n)])
            && DecodeData(COMPLEX_THEN_INT, EncDatum(d), 0)
               == Ok((StructValue(map[[122] := ComplexValue(re, 0), [110] := Int32Value(Signed(im / WORD))]), 12))
  {
    hide DecodeFields, HaveTypes, Members, EncItems, Signed;
    ComplexThenIntMeaning(re, im, n);
    ComplexThenIntDecoded(re, im, n);
  }

  lemma ComplexThenIntMeaning(re: int, im: int, n: int)
    requires IsBits64(re) && IsBits64(im) && IsInt32(n)
    ensures HaveTypes(ComplexThenInt(re, im, n).items, COMPLEX_THEN_INT.fields)
    ensures Members(ComplexThenInt(re, im, n).items, COMPLEX_THEN_INT.fields, map[])
         == map[[122] := ComplexValue(re, im), [110] := Int32Value(n)]
  {
    var fields, items := COMPLEX_THEN_INT.fields, ComplexThenInt(re, im, n).items;
    assert fields[1..] == [fields[1]] && items[1..] == [items[1]];
    assert [items[1]][1..] == [] && [fields[1]][1..] == [] && HaveTypes([], []);
    assert HaveTypes([items[1]], [fields[1]]);
    var afterZ := map[[122] := ComplexValue(re, im)];
    assert Members([items[1]], [fields[1]], afterZ) == afterZ[[110] := Int32Value(n)];
  }

  lemma ComplexThenIntDecoded(re: int, im: int, n: int)
    requires IsBits64(re) && IsBits64(im) && IsInt32(n)
    ensures DecodeFields(COMPLEX_THEN_INT.fields, map[], EncItems(ComplexThenInt(re, im, n).items), 0)
         == Ok((map[[122] := ComplexValue(re, 0), [110] := Int32Value(Signed(im / WORD))], 12))
  {
    hide At, GetInt, GetWord, GetBits, EncDatum, EncItems, Signed;
    var fields, z, items := COMPLEX_THEN_INT.fields, ComplexDatum(re, im), ComplexThenInt(re, im, n).items;
    var buf := EncItems(items);
    ItemsSplit(items);
    AtSelf([], buf, []);
    assert [] + buf + [] == buf;
    AtSplit(buf, 0, EncDatum(z), EncItems(items[1..]));
    ComplexFieldDecodes(buf, 0, re, im);
    assert fields[1..] == [fields[1]];
    var afterZ := map[[122] := ComplexValue(re, 0)];
    var high := Int32Value(Signed(im / WORD));
    assert DecodeScalar(Int32, buf, 8) == Ok((high, 12));
    assert DecodeFields([fields[1]], afterZ, buf, 8) == Ok((afterZ[[110] := high], 12));
  }

  lemma {:induction false} ItemsSplit(items: seq<Datum>)
    requires items != []
    ensures EncItems(items) == EncDatum(items[0]) + EncItems(items[1..])
  {
    hide EncDatum;
  }
}
