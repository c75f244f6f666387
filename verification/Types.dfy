/** Type definitions: scalar types and structs of further definitions. */
module Types {
  import opened Base
  import opened Words
  import opened Properties

  const TAG_TYPE := 16
  const TAG_STRUCT_END := 18

  const TYPEID_INT8 := 1
  const TYPEID_INT32 := 5
  const TYPEID_DOUBLE := 11
  const TYPEID_COMPLEXDOUBLE := 12
  const TYPEID_STRUCT := 16

  datatype TypeBody = Int8 | Int32 | Double | ComplexDouble | Struct(fields: seq<TypeDef>)

  datatype TypeDef = TypeDef(id: int, name: Bytes, body: TypeBody, props: seq<Property>)

  // ---------------------------------------------------------------- sizes

  /** Bytes of one value in a file, as the definitions promise it. */
  function DataSize(body: TypeBody): (n: nat)
    ensures n % 4 == 0
  {
    match body
    case Int8 => 4
    case Int32 => 4
    case Double => 8
    case ComplexDouble => 16
    case Struct(fields) => FieldsSize(fields)
  }

  function FieldsSize(fields: seq<TypeDef>): (n: nat)
    ensures n % 4 == 0
  {
    if fields == [] then 0 else DataSize(fields[0].body) + FieldsSize(fields[1..])
  }

  lemma {:induction false} FieldsSizeAppend(fields: seq<TypeDef>, field: TypeDef)
    ensures FieldsSize(fields + [field]) == FieldsSize(fields) + DataSize(field.body)
  {
    if fields == [] {
      assert [field][1..] == [];
    } else {
      assert (fields + [field])[1..] == fields[1..] + [field];
      FieldsSizeAppend(fields[1..], field);
    }
  }

  // ---------------------------------------------------------------- parsing

  /** The scalar types a definition may name; every other identifier is refused. */
  function ScalarBody(typeId: int): Result<TypeBody> {
    if typeId == TYPEID_INT8 then Ok(Int8)
    else if typeId == TYPEID_INT32 then Ok(Int32)
    else if typeId == TYPEID_DOUBLE then Ok(Double)
    else if typeId == TYPEID_COMPLEXDOUBLE then Ok(ComplexDouble)
    else Err(UnknownType(typeId))
  }

  /** The words in front of a definition's body: identifier, name, an array type that is dropped, type identifier. */
  function ParseTypeHead(buf: Bytes, p: int): (r: Parsed<(int, Bytes, int)>)
    ensures r.Ok? ==> 0 <= p && p + 4 <= |buf| && p + 20 <= r.value.1
  {
    var q :- ParseTag(buf, p, Some(TAG_TYPE));
    var id :- GetInt(buf, q);
    var (name, q2) :- ParseString(buf, q + 4);
    var arrayType :- GetInt(buf, q2);
    var typeId :- GetInt(buf, q2 + 4);
    Ok(((id, name, typeId), q2 + 8))
  }

  function ParseTypeDef(buf: Bytes, p: int): (r: Parsed<TypeDef>)
    ensures r.Ok? ==> 0 <= p && p + 20 <= r.value.1
    decreases |buf| - p, 0
  {
    var ((id, name, typeId), q) :- ParseTypeHead(buf, p);
    var (body, q2) :- ParseBody(buf, q, typeId);
    var (props, end) :- ParseProperties(buf, q2);
    Ok((TypeDef(id, name, body, props), end))
  }

  function ParseBody(buf: Bytes, p: int, typeId: int): (r: Parsed<TypeBody>)
    ensures r.Ok? ==> p <= r.value.1
    decreases |buf| - p, 2
  {
    if typeId == TYPEID_STRUCT then
      var (fields, end) :- ParseFields(buf, p);
      Ok((Struct(fields), end))
    else
      var body :- ScalarBody(typeId);
      Ok((body, p))
  }

  /** Field definitions up to the struct's end marker, which is consumed. */
  function ParseFields(buf: Bytes, p: int): (r: Parsed<seq<TypeDef>>)
    ensures r.Ok? ==> p + 4 <= r.value.1
    decreases |buf| - p, 1
  {
    var tag :- GetInt(buf, p);
    if tag == TAG_TYPE then
      var (field, q) :- ParseTypeDef(buf, p);
      Prepend([field], ParseFields(buf, q))
    else if tag == TAG_STRUCT_END then
      Ok(([], p + 4))
    else
      Err(IncorrectChunk(tag))
  }

  /** `DataTypeDef::deserialize`, which also computes the size of the data. */
  method DeserializeTypeDef(buf: Bytes, p: int) returns (r: Result<(TypeDef, int)>, dataSize: int)
    ensures r == ParseTypeDef(buf, p)
    ensures r.Ok? ==> dataSize == DataSize(r.value.0.body)
    decreases |buf| - p, 0
  {
    hide ParseTypeHead, ParseProperties, GetInt;
    dataSize := 0;
    var head := ParseTypeHead(buf, p);
    if head.Err? { return Err(head.error), 0; }
    var ((id, name, typeId), q) := head.value;
    var body: TypeBody;
    if typeId == TYPEID_STRUCT {
      var fields;
      fields, dataSize := DeserializeStructDef(buf, q);
      if fields.Err? { return Err(fields.error), 0; }
      body, q := Struct(fields.value.0), fields.value.1;
    } else {
      var scalar := ScalarBody(typeId);
      if scalar.Err? { return Err(scalar.error), 0; }
      body, dataSize := scalar.value, DataSize(scalar.value);
    }
    var block := new PropertyBlock();
    var end := block.Deserialize(buf, q);
    if end.Err? { return Err(end.error), 0; }
    assert block.propList == [] + ParseProperties(buf, q).value.0 == ParseProperties(buf, q).value.0;
    r := Ok((TypeDef(id, name, body, block.propList), end.value));
  }

  /** `StructDef::deserialize`: children are read until the end marker and their sizes added up. */
  method DeserializeStructDef(buf: Bytes, p: int) returns (r: Result<(seq<TypeDef>, int)>, dataSize: int)
    ensures r == ParseFields(buf, p)
    ensures r.Ok? ==> dataSize == FieldsSize(r.value.0)
    decreases |buf| - p, 1
  {
    hide GetInt, ParseTypeDef;
    var q, children := p, [];
    dataSize := 0;
    PrependNothing(ParseFields(buf, p));
    while true
      invariant p <= q
      invariant ParseFields(buf, p) == Prepend(children, ParseFields(buf, q))
      invariant dataSize == FieldsSize(children)
      decreases |buf| - q
    {
      var tag := GetInt(buf, q);
      if tag.Err? { return Err(tag.error), 0; }
      if tag.value == TAG_STRUCT_END { break; }
      if tag.value != TAG_TYPE { return Err(IncorrectChunk(tag.value)), 0; }
      var child, childSize := DeserializeTypeDef(buf, q);
      if child.Err? { return Err(child.error), 0; }
      var (field, next) := child.value;
      PrependStep(children, field, ParseFields(buf, next));
      FieldsSizeAppend(children, field);
      children, dataSize, q := children + [field], dataSize + childSize, next;
    }
    assert children + [] == children;
    r := Ok((children, q + 4));
  }

  // ---------------------------------------------------------------- encoding

  function TypeIdOf(body: TypeBody): int {
    match body
    case Int8 => TYPEID_INT8
    case Int32 => TYPEID_INT32
    case Double => TYPEID_DOUBLE
    case ComplexDouble => TYPEID_COMPLEXDOUBLE
    case Struct(_) => TYPEID_STRUCT
  }

  function EncTypeHead(t: TypeDef, skipped: Skipped): Bytes {
    EncWord(TAG_TYPE) + (EncInt(t.id) + (EncString(t.name, FirstOf(skipped))
      + (EncInt(WordOf(RestOf(skipped))) + EncInt(TypeIdOf(t.body)))))
  }

  function EncTypeDef(t: TypeDef, skipped: Skipped): Bytes
    decreases t
  {
    EncTypeHead(t, FirstOf(skipped)) + (EncBody(t.body, FirstOf(RestOf(skipped)))
                                        + EncProperties(t.props, RestOf(RestOf(skipped))))
  }

  function EncBody(body: TypeBody, skipped: Skipped): Bytes
    decreases body
  {
    if body.Struct? then EncFields(body.fields, skipped) + EncWord(TAG_STRUCT_END) else []
  }

  function EncFields(fields: seq<TypeDef>, skipped: Skipped): Bytes
    decreases fields
  {
    if fields == [] then [] else EncTypeDef(fields[0], FirstOf(skipped)) + EncFields(fields[1..], RestOf(skipped))
  }

  predicate EncodableType(t: TypeDef)
    decreases t
  {
    && IsInt32(t.id)
    && IsString(t.name)
    && EncodableProperties(t.props)
    && (t.body.Struct? ==> EncodableFields(t.body.fields))
  }

  predicate EncodableFields(fields: seq<TypeDef>)
    decreases fields
  {
    fields == [] || (EncodableType(fields[0]) && EncodableFields(fields[1..]))
  }

  lemma TagAt(buf: Bytes, p: int, tag: int)
    requires IsWord(tag) && tag < HALF_WORD && At(buf, p, EncWord(tag))
    ensures GetInt(buf, p) == Ok(tag) && ParseTag(buf, p, Some(tag)) == Ok(p + 4)
  {
    WordAt(buf, p, tag);
  }

  lemma {:induction false} TypeHeadAt(buf: Bytes, p: int, t: TypeDef, skipped: Skipped)
    requires EncodableType(t) && At(buf, p, EncTypeHead(t, skipped))
    ensures GetInt(buf, p) == Ok(TAG_TYPE)
    ensures ParseTypeHead(buf, p) == Ok(((t.id, t.name, TypeIdOf(t.body)), p + |EncTypeHead(t, skipped)|))
  {
    hide At, GetInt, ParseString, ParseTag, EncWord, EncInt, EncString, EncodableProperties, EncodableFields;
    var tag, id, name := EncWord(TAG_TYPE), EncInt(t.id), EncString(t.name, FirstOf(skipped));
    var arrayType, typeId := EncInt(WordOf(RestOf(skipped))), EncInt(TypeIdOf(t.body));
    AtSplit(buf, p, tag, id + (name + (arrayType + typeId)));
    AtSplit(buf, p + 4, id, name + (arrayType + typeId));
    AtSplit(buf, p + 8, name, arrayType + typeId);
    var q := p + 8 + |name|;
    AtSplit(buf, q, arrayType, typeId);
    TagAt(buf, p, TAG_TYPE);
    IntAt(buf, p + 4, t.id);
    StringAt(buf, p + 8, t.name, FirstOf(skipped));
    IntAt(buf, q, WordOf(RestOf(skipped)));
    IntAt(buf, q + 4, TypeIdOf(t.body));
  }

  /** Round trip of the type grammar: whatever array type words and padding were written, a nested definition is
      read back and the parser stops at its end, provided the next word does not continue its properties. */
  lemma {:induction false} TypeRoundTrip(buf: Bytes, p: int, t: TypeDef, skipped: Skipped)
    requires EncodableType(t) && At(buf, p, EncTypeDef(t, skipped))
    requires EndsProperties(buf, p + |EncTypeDef(t, skipped)|)
    ensures GetInt(buf, p) == Ok(TAG_TYPE)
    ensures ParseTypeDef(buf, p) == Ok((t, p + |EncTypeDef(t, skipped)|))
    decreases t
  {
    hide At, GetInt, EndsProperties, ParseTypeHead, ParseProperties, EncTypeHead, EncProperties, EncodableProperties;
    var headSkipped, bodySkipped, propsSkipped := FirstOf(skipped), FirstOf(RestOf(skipped)), RestOf(RestOf(skipped));
    var head, body, props := EncTypeHead(t, headSkipped), EncBody(t.body, bodySkipped),
        EncProperties(t.props, propsSkipped);
    AtSplit(buf, p, head, body + props);
    var q := p + |head|;
    AtSplit(buf, q, body, props);
    TypeHeadAt(buf, p, t, headSkipped);
    PropertiesRoundTrip(buf, q + |body|, t.props, propsSkipped);
    if t.body.Struct? {
      AtSplit(buf, q, EncFields(t.body.fields, bodySkipped), EncWord(TAG_STRUCT_END));
      FieldsRoundTrip(buf, q, t.body.fields, bodySkipped);
    }
  }

  lemma {:induction false} FieldsRoundTrip(buf: Bytes, p: int, fields: seq<TypeDef>, skipped: Skipped)
    requires EncodableFields(fields) && At(buf, p, EncFields(fields, skipped))
    requires At(buf, p + |EncFields(fields, skipped)|, EncWord(TAG_STRUCT_END))
    ensures ParseFields(buf, p) == Ok((fields, p + |EncFields(fields, skipped)| + 4))
    decreases fields
  {
    hide At, GetInt, EncTypeDef, ParseTypeDef, EncodableType;
    if fields == [] {
      TagAt(buf, p, TAG_STRUCT_END);
    } else {
      var first, rest := EncTypeDef(fields[0], FirstOf(skipped)), EncFields(fields[1..], RestOf(skipped));
      AtSplit(buf, p, first, rest);
      var q := p + |first|;
      FieldsRoundTrip(buf, q, fields[1..], RestOf(skipped));
      FieldsEndBlock(buf, q, fields[1..], RestOf(skipped));
      TypeRoundTrip(buf, p, fields[0], FirstOf(skipped));
      assert [fields[0]] + fields[1..] == fields;
    }
  }

  /** Fields and end markers do not start with a property tag. */
  lemma {:induction false} FieldsEndBlock(buf: Bytes, p: int, fields: seq<TypeDef>, skipped: Skipped)
    requires At(buf, p, EncFields(fields, skipped))
    requires At(buf, p + |EncFields(fields, skipped)|, EncWord(TAG_STRUCT_END))
    ensures EndsProperties(buf, p)
  {
    hide At, GetInt, EncTypeHead, EncProperties, EncBody;
    if fields == [] {
      TagAt(buf, p, TAG_STRUCT_END);
    } else {
      AtSplit(buf, p, EncTypeDef(fields[0], FirstOf(skipped)), EncFields(fields[1..], RestOf(skipped)));
      TypeDefStart(buf, p, fields[0], FirstOf(skipped));
    }
  }

  lemma {:induction false} TypeDefStart(buf: Bytes, p: int, t: TypeDef, skipped: Skipped)
    requires At(buf, p, EncTypeDef(t, skipped))
    ensures GetInt(buf, p) == Ok(TAG_TYPE)
  {
    hide At, GetInt, EncWord, EncInt, EncString, EncBody, EncProperties;
    var head := FirstOf(skipped);
    var tail := EncInt(t.id) + (EncString(t.name, FirstOf(head))
                                + (EncInt(WordOf(RestOf(head))) + EncInt(TypeIdOf(t.body))));
    AtSplit(buf, p, EncTypeHead(t, head),
            EncBody(t.body, FirstOf(RestOf(skipped))) + EncProperties(t.props, RestOf(RestOf(skipped))));
    AtSplit(buf, p, EncWord(TAG_TYPE), tail);
    TagAt(buf, p, TAG_TYPE);
  }
}
