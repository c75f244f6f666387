/** Which types are decoded to the right value. A complex field of a struct loses its imaginary part and shifts
    everything behind it; a field that a later one of the same name replaces does not matter. */
module Legibility {
  import opened Base
  import opened Words
  import opened Types
  import opened Values

  predicate Named(fields: seq<TypeDef>, name: Bytes) {
    fields != [] && (fields[0].name == name || Named(fields[1..], name))
  }

  /** The first field is replaced by a later one. */
  predicate Hidden(fields: seq<TypeDef>)
    requires fields != []
  {
    Named(fields[1..], fields[0].name)
  }

  /** All data of the type mean the same value: no scalar in it survives. */
  predicate Constant(body: TypeBody) {
    body.Struct? && ConstantFields(body.fields)
  }

  predicate ConstantFields(fields: seq<TypeDef>) {
    fields == []
    || ((Hidden(fields) || (fields[0].body.Struct? && ConstantFields(fields[0].body.fields)))
        && ConstantFields(fields[1..]))
  }

  /** Every scalar that survives stands before the first complex number. */
  predicate Legible(body: TypeBody) {
    body.Struct? ==> LegibleFields(body.fields)
  }

  predicate LegibleField(body: TypeBody) {
    match body
    case ComplexDouble => false
    case Struct(fields) => LegibleFields(fields)
    case _ => true
  }

  predicate LegibleFields(fields: seq<TypeDef>) {
    fields == []
    || ((Hidden(fields) || LegibleField(fields[0].body))
        && if ComplexLeaves(fields[0].body) == 0 then LegibleFields(fields[1..]) else ConstantFields(fields[1..]))
  }

  lemma {:induction false} WithoutComplex(fields: seq<TypeDef>)
    requires FieldComplexLeaves(fields) == 0
    ensures LegibleFields(fields)
  {
    if fields != [] {
      if fields[0].body.Struct? {
        WithoutComplex(fields[0].body.fields);
      }
      WithoutComplex(fields[1..]);
    }
  }

  lemma {:induction false} ConstantIsLegible(fields: seq<TypeDef>)
    requires ConstantFields(fields)
    ensures LegibleFields(fields)
  {
    if fields != [] {
      if !Hidden(fields) {
        ConstantIsLegible(fields[0].body.fields);
      }
      ConstantIsLegible(fields[1..]);
    }
  }

  /** No field at any depth is replaced by a later one. */
  predicate NamesApart(fields: seq<TypeDef>) {
    fields == []
    || (!Hidden(fields) && (fields[0].body.Struct? ==> NamesApart(fields[0].body.fields)) && NamesApart(fields[1..]))
  }

  /** Where field names are not repeated, the legible types are those without a complex number inside a struct. */
  lemma {:induction false} LegibleWithDistinctNames(fields: seq<TypeDef>)
    requires NamesApart(fields)
    ensures LegibleFields(fields) <==> FieldComplexLeaves(fields) == 0
  {
    if fields != [] {
      if fields[0].body.Struct? {
        LegibleWithDistinctNames(fields[0].body.fields);
      }
      LegibleWithDistinctNames(fields[1..]);
    }
  }

  // ---------------------------------------------------------------- legible data are decoded to their meaning

  /** A word or a double can be read wherever the file has bytes. */
  lemma {:induction false} FieldDecodes(body: TypeBody, buf: Bytes, p: int)
    requires 0 <= p && p + DataSize(body) <= |buf|
    ensures DecodeScalar(body, buf, p).Ok?
    ensures p <= DecodeScalar(body, buf, p).value.1 == p + DataSize(body) - 8 * ComplexLeaves(body)
    decreases body, 1
  {
    hide GetInt, GetBits;
    if body.Struct? {
      FieldsDecode(body.fields, map[], buf, p);
    }
  }

  lemma {:induction false} FieldsDecode(fields: seq<TypeDef>, members: map<Bytes, Value>, buf: Bytes, p: int)
    requires 0 <= p && p + FieldsSize(fields) <= |buf|
    ensures DecodeFields(fields, members, buf, p).Ok?
    ensures p <= DecodeFields(fields, members, buf, p).value.1
            == p + FieldsSize(fields) - 8 * FieldComplexLeaves(fields)
    decreases fields, 0
  {
    hide DecodeScalar, DataSize, ComplexLeaves;
    if fields != [] {
      FieldDecodes(fields[0].body, buf, p);
      var (v, q) := DecodeScalar(fields[0].body, buf, p).value;
      FieldsDecode(fields[1..], members[fields[0].name := v], buf, q);
    }
  }

  /** Two member maps that differ at most in fields still to come. */
  ghost predicate Agree(a: map<Bytes, Value>, b: map<Bytes, Value>, fields: seq<TypeDef>) {
    forall name :: !Named(fields, name) ==> (name in a <==> name in b) && (name in a ==> a[name] == b[name])
  }

  lemma AgreeStep(a: map<Bytes, Value>, b: map<Bytes, Value>, fields: seq<TypeDef>, v: Value, w: Value)
    requires fields != [] && Agree(a, b, fields) && (Hidden(fields) || v == w)
    ensures Agree(a[fields[0].name := v], b[fields[0].name := w], fields[1..])
  {
  }

  lemma AgreeEnd(a: map<Bytes, Value>, b: map<Bytes, Value>)
    requires Agree(a, b, [])
    ensures a == b
  {
  }

  /** Constant fields are decoded to their meaning wherever they are read from. */
  lemma {:induction false} ConstantFieldsDecode(items: seq<Datum>, fields: seq<TypeDef>, a: map<Bytes, Value>,
                                                b: map<Bytes, Value>, buf: Bytes, p: int)
    requires ConstantFields(fields) && HaveTypes(items, fields) && Agree(a, b, fields)
    requires 0 <= p && p + FieldsSize(fields) <= |buf|
    ensures DecodeFields(fields, a, buf, p).Ok? && DecodeFields(fields, a, buf, p).value.0 == Members(items, fields, b)
    decreases items
  {
    hide DataSize, HasType, Agree, ComplexLeaves, GetInt, GetBits;
    if fields == [] {
      AgreeEnd(a, b);
    } else {
      FieldDecodes(fields[0].body, buf, p);
      var (v, q) := DecodeScalar(fields[0].body, buf, p).value;
      var w := Meaning(items[0], fields[0].body);
      if !Hidden(fields) {
        assert v == w by { ConstantDecodes(items[0], fields[0].body, buf, p); }
      }
      AgreeStep(a, b, fields, v, w);
      ConstantFieldsDecode(items[1..], fields[1..], a[fields[0].name := v], b[fields[0].name := w], buf, q);
    }
  }

  lemma {:induction false} ConstantDecodes(d: Datum, body: TypeBody, buf: Bytes, p: int)
    requires Constant(body) && HasType(d, body) && 0 <= p && p + DataSize(body) <= |buf|
    ensures DecodeScalar(body, buf, p).Ok? && DecodeScalar(body, buf, p).value.0 == Meaning(d, body)
    decreases d
  {
    ConstantFieldsDecode(d.items, body.fields, map[], map[], buf, p);
  }

  lemma {:induction false} LegibleFieldsDecode(items: seq<Datum>, fields: seq<TypeDef>, a: map<Bytes, Value>,
                                               b: map<Bytes, Value>, buf: Bytes, p: int)
    requires LegibleFields(fields) && HaveTypes(items, fields) && Agree(a, b, fields) && At(buf, p, EncItems(items))
    ensures DecodeFields(fields, a, buf, p).Ok? && DecodeFields(fields, a, buf, p).value.0 == Members(items, fields, b)
    decreases items
  {
    hide At, DataSize, HasType, Agree, ComplexLeaves, GetInt, GetBits, EncDatum, DecodeScalar, Meaning, LegibleField,
         Hidden;
    if fields == [] {
      AgreeEnd(a, b);
    } else {
      var body := fields[0].body;
      AtSplit(buf, p, EncDatum(items[0]), EncItems(items[1..]));
      EncDatumSize(items[0], body);
      EncItemsSize(items[1..], fields[1..]);
      AtInside(buf, p, EncDatum(items[0]));
      AtInside(buf, p + DataSize(body), EncItems(items[1..]));
      FieldDecodes(body, buf, p);
      var (v, q) := DecodeScalar(body, buf, p).value;
      var w := Meaning(items[0], body);
      if !Hidden(fields) {
        LegibleFieldDecodes(items[0], body, buf, p);
      }
      AgreeStep(a, b, fields, v, w);
      if ComplexLeaves(body) == 0 {
        LegibleFieldsDecode(items[1..], fields[1..], a[fields[0].name := v], b[fields[0].name := w], buf, q);
      } else {
        ConstantFieldsDecode(items[1..], fields[1..], a[fields[0].name := v], b[fields[0].name := w], buf, q);
      }
    }
  }

  lemma {:induction false} LegibleFieldDecodes(d: Datum, body: TypeBody, buf: Bytes, p: int)
    requires LegibleField(body) && HasType(d, body) && At(buf, p, EncDatum(d))
    ensures DecodeScalar(body, buf, p).Ok? && DecodeScalar(body, buf, p).value.0 == Meaning(d, body)
    decreases d
  {
    hide At, GetInt, GetInt8, GetBits, EncInt, EncBits, Agree, LegibleFields, HaveTypes, Members, DecodeFields, LowByte;
    match d
    case Int8Datum(word) => Int8At(buf, p, word);
    case Int32Datum(n) => IntAt(buf, p, n);
    case DoubleDatum(bits) => BitsAt(buf, p, bits);
    case ComplexDatum(re, im) =>
    case StructDatum(items) =>
      NothingToAgree(body.fields);
      LegibleFieldsDecode(items, body.fields, map[], map[], buf, p);
  }

  lemma NothingToAgree(fields: seq<TypeDef>)
    ensures Agree(map[], map[], fields)
  {
  }

  // ---------------------------------------------------------------- illegible data are misread

  /** Data that are zero but for the first scalar that survives. */
  function Marked(body: TypeBody): (d: Datum)
    ensures HasType(d, body)
  {
    match body
    case Int8 => Int8Datum(1)
    case Int32 => Int32Datum(1)
    case Double => DoubleDatum(1)
    case ComplexDouble => ComplexDatum(1, 1)
    case Struct(fields) => StructDatum(MarkedItems(fields))
  }

  function MarkedItems(fields: seq<TypeDef>): (items: seq<Datum>)
    ensures HaveTypes(items, fields)
  {
    if fields == [] then []
    else if !Hidden(fields) && !Constant(fields[0].body) then [Marked(fields[0].body)] + ZeroItems(fields[1..])
    else [ZeroDatum(fields[0].body)] + MarkedItems(fields[1..])
  }

  /** Data that are zero but for the first scalar that survives and is not read where it was written. */
  function Misplaced(body: TypeBody): (d: Datum)
    ensures HasType(d, body)
  {
    match body
    case Struct(fields) => StructDatum(MisplacedItems(fields))
    case _ => Marked(body)
  }

  function MisplacedItems(fields: seq<TypeDef>): (items: seq<Datum>)
    ensures HaveTypes(items, fields)
  {
    if fields == [] then []
    else if !Hidden(fields) && !LegibleField(fields[0].body) then [Misplaced(fields[0].body)] + ZeroItems(fields[1..])
    else if ComplexLeaves(fields[0].body) == 0 then [ZeroDatum(fields[0].body)] + MisplacedItems(fields[1..])
    else [ZeroDatum(fields[0].body)] + MarkedItems(fields[1..])
  }

  ghost predicate ZerosIn(buf: Bytes, p: int, q: int) {
    0 <= p <= q <= |buf| && forall i :: p <= i < q ==> buf[i] == 0
  }

  ghost predicate AllZero(s: Bytes) {
    forall i :: 0 <= i < |s| ==> s[i] == 0
  }

  lemma ZerosAt(buf: Bytes, p: int, s: Bytes)
    requires At(buf, p, s) && AllZero(s)
    ensures ZerosIn(buf, p, p + |s|)
  {
    forall i | p <= i < p + |s| ensures buf[i] == 0 {
      assert buf[i] == buf[p..p + |s|][i - p];
    }
  }

  lemma {:induction false} ZeroDatumBytes(body: TypeBody)
    ensures AllZero(EncDatum(ZeroDatum(body))) && |EncDatum(ZeroDatum(body))| == DataSize(body)
    decreases body, 1
  {
    EncDatumSize(ZeroDatum(body), body);
    if body.Struct? {
      ZeroItemsBytes(body.fields);
    }
  }

  lemma {:induction false} ZeroItemsBytes(fields: seq<TypeDef>)
    ensures AllZero(EncItems(ZeroItems(fields)))
    decreases fields, 0
  {
    hide EncDatum, ZeroDatum;
    if fields != [] {
      ZeroDatumBytes(fields[0].body);
      ZeroItemsBytes(fields[1..]);
      assert ZeroItems(fields)[1..] == ZeroItems(fields[1..]);
    }
  }

  lemma {:induction false} KeptByDecode(fields: seq<TypeDef>, members: map<Bytes, Value>, buf: Bytes, p: int,
                                        name: Bytes)
    requires !Named(fields, name) && name in members && DecodeFields(fields, members, buf, p).Ok?
    ensures name in DecodeFields(fields, members, buf, p).value.0
    ensures DecodeFields(fields, members, buf, p).value.0[name] == members[name]
    decreases fields
  {
    hide DecodeScalar;
    if fields != [] {
      var (v, q) := DecodeScalar(fields[0].body, buf, p).value;
      KeptByDecode(fields[1..], members[fields[0].name := v], buf, q, name);
    }
  }

  lemma {:induction false} KeptByMembers(items: seq<Datum>, fields: seq<TypeDef>, members: map<Bytes, Value>,
                                         name: Bytes)
    requires !Named(fields, name) && name in members
    ensures name in Members(items, fields, members) && Members(items, fields, members)[name] == members[name]
    decreases items
  {
    hide Meaning;
    if items != [] && fields != [] {
      KeptByMembers(items[1..], fields[1..], members[fields[0].name := Meaning(items[0], fields[0].body)], name);
    }
  }

  /** A surviving field that is decoded to a wrong value spoils the struct. */
  lemma {:induction false} WrongFieldShows(items: seq<Datum>, fields: seq<TypeDef>, a: map<Bytes, Value>, b: map<Bytes,
                                           Value>, buf: Bytes, p: int)
    requires fields != [] && items != [] && !Hidden(fields)
    requires DecodeScalar(fields[0].body, buf, p).Ok?
    requires DecodeScalar(fields[0].body, buf, p).value.0 != Meaning(items[0], fields[0].body)
    ensures DecodeFields(fields, a, buf, p).Ok? ==> DecodeFields(fields, a, buf, p).value.0 != Members(items, fields, b)
  {
    hide DecodeScalar, Meaning;
    var (v, q) := DecodeScalar(fields[0].body, buf, p).value;
    var name, w := fields[0].name, Meaning(items[0], fields[0].body);
    if DecodeFields(fields, a, buf, p).Ok? {
      KeptByDecode(fields[1..], a[name := v], buf, q, name);
      KeptByMembers(items[1..], fields[1..], b[name := w], name);
    }
  }

  lemma ZeroWordRead(buf: Bytes, p: int)
    requires ZerosIn(buf, p, p + 8)
    ensures GetInt(buf, p) == Ok(0) && GetInt8(buf, p) == Ok(0) && GetBits(buf, p) == Ok(0)
  {
  }

  /** Read at least 8 bytes too early, out of zeros, the marked scalar is missed. */
  lemma {:induction false} ShiftedField(body: TypeBody, buf: Bytes, q: int, p: int)
    requires !Constant(body) && q + 8 <= p && ZerosIn(buf, q, p) && At(buf, p, EncDatum(Marked(body)))
    ensures DecodeScalar(body, buf, q).Ok? ==> DecodeScalar(body, buf, q).value.0 != Meaning(Marked(body), body)
    decreases body, 1
  {
    hide At, GetInt, GetInt8, GetBits, ZerosIn;
    if body.Struct? {
      ShiftedFields(body.fields, map[], map[], buf, q, p);
    } else {
      assert ZerosIn(buf, q, q + 8) by { ZerosFront(buf, q, p); }
      ZeroWordRead(buf, q);
    }
  }

  lemma ZerosFront(buf: Bytes, q: int, p: int)
    requires ZerosIn(buf, q, p) && q + 8 <= p
    ensures ZerosIn(buf, q, q + 8)
  {
  }

  lemma {:induction false} ShiftedFields(fields: seq<TypeDef>, a: map<Bytes, Value>, b: map<Bytes, Value>,
                                         buf: Bytes, q: int, p: int)
    requires !ConstantFields(fields) && q + 8 <= p && ZerosIn(buf, q, p) && At(buf, p, EncItems(MarkedItems(fields)))
    ensures DecodeFields(fields, a, buf, q).Ok? ==>
              DecodeFields(fields, a, buf, q).value.0 != Members(MarkedItems(fields), fields, b)
    decreases fields, 0
  {
    hide At, DecodeScalar, Meaning, EncDatum, ZerosIn, Marked, ZeroDatum, DataSize, ComplexLeaves, Hidden, Constant;
    if DecodeFields(fields, a, buf, q).Ok? {
      var items, body := MarkedItems(fields), fields[0].body;
      AtSplit(buf, p, EncDatum(items[0]), EncItems(items[1..]));
      var (v, next) := DecodeScalar(body, buf, q).value;
      if !Hidden(fields) && !Constant(body) {
        ShiftedField(body, buf, q, p);
        WrongFieldShows(items, fields, a, b, buf, q);
      } else {
        ZeroFieldPassed(body, buf, q, p);
        var w := Meaning(items[0], body);
        ConstantFirst(fields);
        ShiftedFields(fields[1..], a[fields[0].name := v], b[fields[0].name := w], buf, next, p + DataSize(body));
      }
    }
  }

  lemma {:induction false} ConstantFirst(fields: seq<TypeDef>)
    requires fields != [] && (Hidden(fields) || Constant(fields[0].body))
    ensures ConstantFields(fields) <==> ConstantFields(fields[1..])
  {
  }

  /** A field of zeros leaves zeros between the place that is read next and the place that was written next. */
  lemma {:induction false} ZeroFieldPassed(body: TypeBody, buf: Bytes, q: int, p: int)
    requires q <= p && ZerosIn(buf, q, p) && At(buf, p, EncDatum(ZeroDatum(body))) && DecodeScalar(body, buf, q).Ok?
    ensures |EncDatum(ZeroDatum(body))| == DataSize(body)
    ensures var next := DecodeScalar(body, buf, q).value.1;
            && next == q + DataSize(body) - 8 * ComplexLeaves(body)
            && ZerosIn(buf, next, p + DataSize(body))
  {
    hide At, DecodeScalar, EncDatum, ZeroDatum, AllZero, ComplexLeaves, DataSize;
    ZeroDatumBytes(body);
    ScalarConsumes(body, buf, q);
    ComplexWithinSize(body);
    ZerosAt(buf, p, EncDatum(ZeroDatum(body)));
  }

  lemma {:induction false} MisplacedField(body: TypeBody, buf: Bytes, p: int)
    requires !LegibleField(body) && At(buf, p, EncDatum(Misplaced(body)))
    ensures DecodeScalar(body, buf, p).Ok? ==> DecodeScalar(body, buf, p).value.0 != Meaning(Misplaced(body), body)
    decreases body, 1
  {
    hide At, GetInt, GetInt8, GetBits;
    if body.Struct? {
      MisplacedFields(body.fields, map[], map[], buf, p);
    }
  }

  lemma {:induction false} MisplacedFields(fields: seq<TypeDef>, a: map<Bytes, Value>, b: map<Bytes, Value>, buf: Bytes,
                                           p: int)
    requires !LegibleFields(fields) && At(buf, p, EncItems(MisplacedItems(fields)))
    ensures DecodeFields(fields, a, buf, p).Ok? ==>
              DecodeFields(fields, a, buf, p).value.0 != Members(MisplacedItems(fields), fields, b)
    decreases fields, 0
  {
    hide At, DecodeScalar, Meaning, EncDatum, Misplaced, ZeroDatum, DataSize, ComplexLeaves, Hidden, LegibleField;
    if DecodeFields(fields, a, buf, p).Ok? {
      var items, body := MisplacedItems(fields), fields[0].body;
      AtSplit(buf, p, EncDatum(items[0]), EncItems(items[1..]));
      var (v, next) := DecodeScalar(body, buf, p).value;
      var w := Meaning(items[0], body);
      if !Hidden(fields) && !LegibleField(body) {
        MisplacedField(body, buf, p);
        WrongFieldShows(items, fields, a, b, buf, p);
      } else {
        assert ZerosIn(buf, p, p) by { AtInside(buf, p, EncDatum(items[0])); }
        ZeroFieldPassed(body, buf, p, p);
        if ComplexLeaves(body) == 0 {
          MisplacedFields(fields[1..], a[fields[0].name := v], b[fields[0].name := w], buf, next);
        } else {
          ShiftedFields(fields[1..], a[fields[0].name := v], b[fields[0].name := w], buf, next, p + DataSize(body));
        }
      }
    }
  }

  // ---------------------------------------------------------------- single values

  /** The decoded value is the one that was written. */
  ghost predicate ReadsBack(d: Datum, body: TypeBody, buf: Bytes, p: int) {
    DecodeData(body, buf, p).Ok? && DecodeData(body, buf, p).value.0 == Meaning(d, body)
  }

  lemma {:induction false} LegibleDecodes(d: Datum, body: TypeBody, buf: Bytes, p: int)
    requires Legible(body) && HasType(d, body) && At(buf, p, EncDatum(d))
    ensures ReadsBack(d, body, buf, p)
  {
    hide At, GetInt, GetInt8, GetBits, EncInt, EncBits, LegibleFields, HaveTypes, Members, DecodeFields, DataSize;
    if body.Struct? {
      NothingToAgree(body.fields);
      LegibleFieldsDecode(d.items, body.fields, map[], map[], buf, p);
    } else {
      DatumRoundTrip(d, body, buf, p);
    }
  }

  lemma {:induction false} IllegibleMisread(body: TypeBody, buf: Bytes, p: int)
    requires !Legible(body) && At(buf, p, EncDatum(Misplaced(body)))
    ensures !ReadsBack(Misplaced(body), body, buf, p)
  {
    hide At, LegibleFields, DecodeFields, MisplacedItems, Members;
    MisplacedFields(body.fields, map[], map[], buf, p);
  }

  /** Every datum of a type is decoded to its meaning, wherever it is written, exactly when the type is legible. */
  lemma {:induction false} ReadsBackExactly(body: TypeBody)
    ensures Legible(body) <==>
            forall d, buf, p :: HasType(d, body) && At(buf, p, EncDatum(d)) ==> ReadsBack(d, body, buf, p)
  {
    hide Legible, HasType, At, EncDatum, ReadsBack, Misplaced;
    if Legible(body) {
      forall d, buf, p | HasType(d, body) && At(buf, p, EncDatum(d)) ensures ReadsBack(d, body, buf, p) {
        LegibleDecodes(d, body, buf, p);
      }
    } else {
      var buf := EncDatum(Misplaced(body));
      AtSelf([], buf, []);
      assert [] + buf + [] == buf;
      IllegibleMisread(body, buf, 0);
    }
  }
}
