/** The chunks that sections are made of, and their dispatch on the chunk tag. */
module Chunks {
  import opened Base
  import opened Words
  import opened Keys
  import opened Properties
  import opened Types
  import opened Values

  const TAG_REF := 16
  const TAG_GROUP := 17
  const TAG_VALUE := 16
  const TAG_HEADER_END := 1
  const TAG_SWEEP_END := 3

  /** A reference to a type: a sweep parameter or a trace. */
  datatype TypeRef = TypeRef(id: int, name: Bytes, typeId: int, props: seq<Property>)

  datatype GroupDef = GroupDef(id: int, name: Bytes, members: seq<TypeRef>)

  /** Any chunk held by a section; `V` is `Value` for a parsed file and `Datum` for one yet to be written. */
  datatype Chunk<V> =
    | PropertyChunk(prop: Property)
    | TypeChunk(def: TypeDef)
    | RefChunk(ref: TypeRef)
    | GroupChunk(group: GroupDef)
    | ValueChunk(valueId: int, valueName: Bytes, typeId: int, value: V, props: seq<Property>)
  {
    /** Groups, values and properties keep the identifier of the base class. */
    function Id(): int {
      match this
      case TypeChunk(def) => def.id
      case RefChunk(ref) => ref.id
      case _ => -1
    }

    function Name(): Bytes {
      match this
      case PropertyChunk(prop) => prop.name
      case TypeChunk(def) => def.name
      case RefChunk(ref) => ref.name
      case GroupChunk(group) => group.name
      case ValueChunk(_, name, _, _, _) => name
    }
  }

  /** The sections that differ in which children they accept. */
  datatype Kind = HeaderKind | TypeKind | SweepKind | TraceKind | ValueKind

  /** Type definitions by identifier, as the type section's index holds them. */
  type TypeTable = map<int, TypeDef>

  /** Looking up an unknown identifier dereferences an end iterator. */
  function LookupType(types: TypeTable, typeId: int): Result<TypeDef> {
    if typeId in types then Ok(types[typeId]) else Err(Undefined)
  }

  // ---------------------------------------------------------------- parsing

  function ParseRef(buf: Bytes, p: int): (r: Parsed<TypeRef>)
    ensures r.Ok? ==> 0 <= p && p + 4 <= |buf| && p + 16 <= r.value.1
  {
    var q :- ParseTag(buf, p, Some(TAG_REF));
    var id :- GetInt(buf, q);
    var (name, q2) :- ParseString(buf, q + 4);
    var typeId :- GetInt(buf, q2);
    var (props, end) :- ParseProperties(buf, q2 + 4);
    Ok((TypeRef(id, name, typeId, props), end))
  }

  /** The members of a group: `n` references; any other tag is refused. */
  function ParseMembers(buf: Bytes, p: int, n: int): (r: Parsed<seq<TypeRef>>)
    ensures r.Ok? ==> p <= r.value.1
    decreases n
  {
    if n <= 0 then Ok(([], p))
    else
      var tag :- GetInt(buf, p);
      if tag != TAG_REF then Err(IncorrectChunk(tag))
      else
        var (ref, q) :- ParseRef(buf, p);
        Prepend([ref], ParseMembers(buf, q, n - 1))
  }

  function ParseGroupHead(buf: Bytes, p: int): (r: Parsed<(int, Bytes, int)>)
    ensures r.Ok? ==> 0 <= p && p + 4 <= |buf| && p + 16 <= r.value.1
  {
    var q :- ParseTag(buf, p, Some(TAG_GROUP));
    var id :- GetInt(buf, q);
    var (name, q2) :- ParseString(buf, q + 4);
    var count :- GetInt(buf, q2);
    Ok(((id, name, count), q2 + 4))
  }

  function ParseGroup(buf: Bytes, p: int): (r: Parsed<GroupDef>)
    ensures r.Ok? ==> 0 <= p && p + 4 <= |buf| && p + 16 <= r.value.1
  {
    var ((id, name, count), q) :- ParseGroupHead(buf, p);
    var (members, end) :- ParseMembers(buf, q, count);
    Ok((GroupDef(id, name, members), end))
  }

  function ParseValueHead(buf: Bytes, p: int): (r: Parsed<(int, Bytes, int)>)
    ensures r.Ok? ==> 0 <= p && p + 4 <= |buf| && p + 16 <= r.value.1
  {
    var q :- ParseTag(buf, p, None);
    var id :- GetInt(buf, q);
    var (name, q2) :- ParseString(buf, q + 4);
    var typeId :- GetInt(buf, q2);
    Ok(((id, name, typeId), q2 + 4))
  }

  function ParseValue(types: TypeTable, buf: Bytes, p: int): (r: Parsed<Chunk<Value>>)
    ensures r.Ok? ==> 0 <= p && p + 4 <= |buf| && p + 16 <= r.value.1
  {
    var ((id, name, typeId), q) :- ParseValueHead(buf, p);
    var def :- LookupType(types, typeId);
    var (value, q2) :- DecodeData(def.body, buf, q);
    var (props, end) :- ParseProperties(buf, q2);
    DataMovesForward(def.body, buf, q);
    Ok((ValueChunk(id, name, typeId, value, props), end))
  }

  /** `deserialize_child`: the tag selects the child's class; an end marker is consumed and yields no child. */
  function ParseChild(kind: Kind, types: TypeTable, buf: Bytes, p: int): (r: Parsed<Option<Chunk<Value>>>)
    ensures r.Ok? ==> 0 <= p && p + 4 <= |buf| && p + 4 <= r.value.1
  {
    var tag :- GetInt(buf, p);
    match kind
    case HeaderKind =>
      if IsPropertyTag(tag) then var (prop, q) :- ParseProperty(buf, p); Ok((Some(PropertyChunk(prop)), q))
      else if tag == TAG_HEADER_END then Ok((None, p + 4))
      else Err(IncorrectChunk(tag))
    case TypeKind =>
      if tag == TAG_TYPE then var (def, q) :- ParseTypeDef(buf, p); Ok((Some(TypeChunk(def)), q))
      else Err(IncorrectChunk(tag))
    case SweepKind =>
      if tag == TAG_REF then var (ref, q) :- ParseRef(buf, p); Ok((Some(RefChunk(ref)), q))
      else if tag == TAG_SWEEP_END then Ok((None, p + 4))
      else Err(IncorrectChunk(tag))
    case TraceKind =>
      if tag == TAG_REF then var (ref, q) :- ParseRef(buf, p); Ok((Some(RefChunk(ref)), q))
      else if tag == TAG_GROUP then var (group, q) :- ParseGroup(buf, p); Ok((Some(GroupChunk(group)), q))
      else Err(IncorrectChunk(tag))
    case ValueKind =>
      if tag == TAG_VALUE then var (value, q) :- ParseValue(types, buf, p); Ok((Some(value), q))
      else Err(IncorrectChunk(tag))
  }

  lemma DataMovesForward(body: TypeBody, buf: Bytes, p: int)
    requires DecodeData(body, buf, p).Ok?
    ensures p <= DecodeData(body, buf, p).value.1
  {
    hide DecodeData;
    DataConsumes(body, buf, p);
    ComplexWithinSize(body);
  }

  function MemberNames(members: seq<TypeRef>): seq<Bytes> {
    seq(|members|, i requires 0 <= i < |members| => members[i].name)
  }

  function MemberIds(members: seq<TypeRef>): seq<int> {
    seq(|members|, i requires 0 <= i < |members| => members[i].id)
  }

  /** `DataTypeRef::deserialize`. */
  method DeserializeRef(buf: Bytes, p: int) returns (r: Result<(TypeRef, int)>)
    ensures r == ParseRef(buf, p)
  {
    hide GetInt, ParseString, ParseTag, ParseProperties;
    var q :- ParseTag(buf, p, Some(TAG_REF));
    var id :- GetInt(buf, q);
    q := q + 4;
    var name :- ParseString(buf, q);
    q := name.1;
    var typeId :- GetInt(buf, q);
    q := q + 4;
    var block := new PropertyBlock();
    q :- block.Deserialize(buf, q);
    assert forall props: seq<Property> :: [] + props == props;
    return Ok((TypeRef(id, name.0, typeId, block.propList), q));
  }

  /** `NonSweepValue::deserialize`: the value is decoded by its type as the type section defines it. */
  method DeserializeValue(types: TypeTable, buf: Bytes, p: int) returns (r: Result<(Chunk<Value>, int)>)
    ensures r == ParseValue(types, buf, p)
  {
    hide GetInt, ParseString, ParseTag, ParseProperties, DecodeData, LookupType;
    var q :- ParseTag(buf, p, None);
    var id :- GetInt(buf, q);
    q := q + 4;
    var name :- ParseString(buf, q);
    q := name.1;
    var typeId :- GetInt(buf, q);
    q := q + 4;
    var def :- LookupType(types, typeId);
    var value :- DeserializeData(def.body, buf, q);
    q := value.1;
    var block := new PropertyBlock();
    q :- block.Deserialize(buf, q);
    assert forall props: seq<Property> :: [] + props == props;
    return Ok((ValueChunk(id, name.0, typeId, value.0, block.propList), q));
  }

  /** `Container::deserialize_child` with the `child_factory` of each section. */
  method DeserializeChild(kind: Kind, types: TypeTable, buf: Bytes, p: int)
    returns (r: Result<(Option<Chunk<Value>>, int)>)
    ensures r == ParseChild(kind, types, buf, p)
  {
    hide GetInt, ParseProperty, ParseTypeDef, ParseRef, ParseGroup, ParseValue;
    var tag :- GetInt(buf, p);
    if kind == HeaderKind && IsPropertyTag(tag) {
      var prop :- DeserializeProperty(buf, p);
      return Ok((Some(PropertyChunk(prop.0)), prop.1));
    } else if kind == TypeKind && tag == TAG_TYPE {
      var def, dataSize := DeserializeTypeDef(buf, p);
      if def.Err? { return Err(def.error); }
      return Ok((Some(TypeChunk(def.value.0)), def.value.1));
    } else if (kind == SweepKind || kind == TraceKind) && tag == TAG_REF {
      var ref :- DeserializeRef(buf, p);
      return Ok((Some(RefChunk(ref.0)), ref.1));
    } else if kind == TraceKind && tag == TAG_GROUP {
      var group, nameMap, indexMap := DeserializeGroup(buf, p);
      if group.Err? { return Err(group.error); }
      return Ok((Some(GroupChunk(group.value.0)), group.value.1));
    } else if kind == ValueKind && tag == TAG_VALUE {
      var value :- DeserializeValue(types, buf, p);
      return Ok((Some(value.0), value.1));
    } else if (kind == HeaderKind && tag == TAG_HEADER_END) || (kind == SweepKind && tag == TAG_SWEEP_END) {
      return Ok((None, p + 4));
    } else {
      return Err(IncorrectChunk(tag));
    }
  }

  /** The index of member names after one more member. */
  lemma MemberNamesAppend(members: seq<TypeRef>, ref: TypeRef)
    ensures IndexMap(MemberNames(members + [ref])) == IndexMap(MemberNames(members))[ref.name := |members|]
  {
    IndexMapAppend(MemberNames(members), ref.name);
    assert MemberNames(members + [ref]) == MemberNames(members) + [ref.name];
  }

  lemma MemberIdsAppend(members: seq<TypeRef>, ref: TypeRef)
    ensures IndexMap(MemberIds(members + [ref])) == IndexMap(MemberIds(members))[ref.id := |members|]
  {
    IndexMapAppend(MemberIds(members), ref.id);
    assert MemberIds(members + [ref]) == MemberIds(members) + [ref.id];
  }

  /** `GroupDef::deserialize`, with the name and identifier indexes of the members that it fills. */
  method DeserializeGroup(buf: Bytes, p: int)
    returns (r: Result<(GroupDef, int)>, nameMap: map<Bytes, int>, indexMap: map<int, int>)
    ensures r == ParseGroup(buf, p)
    ensures r.Ok? ==> nameMap == IndexMap(MemberNames(r.value.0.members))
    ensures r.Ok? ==> indexMap == IndexMap(MemberIds(r.value.0.members))
  {
    hide ParseGroupHead, ParseMembers, IndexMap, MemberNames, MemberIds;
    nameMap, indexMap := map[], map[];
    var head := ParseGroupHead(buf, p);
    if head.Err? { return Err(head.error), nameMap, indexMap; }
    var ((id, name, count), q) := head.value;
    var members;
    members, nameMap := DeserializeMembers(buf, q, count);
    if members.Err? { return Err(members.error), nameMap, indexMap; }
    indexMap := CreateValueIndexMap(members.value.0);
    r := Ok((GroupDef(id, name, members.value.0), members.value.1));
  }

  /** The loop of `GroupDef::deserialize`; a negative count reads no member. */
  method DeserializeMembers(buf: Bytes, p: int, count: int)
    returns (r: Result<(seq<TypeRef>, int)>, nameMap: map<Bytes, int>)
    ensures r == ParseMembers(buf, p, count)
    ensures r.Ok? ==> nameMap == IndexMap(MemberNames(r.value.0))
  {
    hide ParseMembers, IndexMap, MemberNames, Prepend;
    var members: seq<TypeRef> := [];
    var q, i := p, 0;
    nameMap := map[];
    NoNames();
    PrependNothing(ParseMembers(buf, q, count));
    while i < count
      invariant 0 <= i && i == |members|
      invariant ParseMembers(buf, p, count) == Prepend(members, ParseMembers(buf, q, count - i))
      invariant nameMap == IndexMap(MemberNames(members))
    {
      var child := DeserializeMember(buf, q, count - i);
      if child.Err? {
        PrependError(members, child.error);
        return Err(child.error), nameMap;
      }
      var (ref, next) := child.value;
      PrependStep(members, ref, ParseMembers(buf, next, count - i - 1));
      MemberNamesAppend(members, ref);
      nameMap := nameMap[ref.name := i];
      members, q, i := members + [ref], next, i + 1;
    }
    NoMembers(buf, q, count - i);
    PrependEnd(members, q);
    r := Ok((members, q));
  }

  lemma NoNames()
    ensures IndexMap(MemberNames([])) == map[]
  {
  }

  lemma {:induction false} NoMembers(buf: Bytes, p: int, n: int)
    requires n <= 0
    ensures ParseMembers(buf, p, n) == Ok(([], p))
  {
  }

  /** `deserialize_child` of a group, with `n` members still to come. */
  method DeserializeMember(buf: Bytes, p: int, ghost n: int) returns (r: Result<(TypeRef, int)>)
    requires n > 0
    ensures ParseMembers(buf, p, n)
         == match r
            case Ok((ref, q)) => Prepend([ref], ParseMembers(buf, q, n - 1))
            case Err(e) => Err(e)
  {
    hide GetInt, ParseRef, Prepend;
    var tag :- GetInt(buf, p);
    if tag != TAG_REF { return Err(IncorrectChunk(tag)); }
    r := DeserializeRef(buf, p);
  }

  method CreateValueIndexMap(members: seq<TypeRef>) returns (indexMap: map<int, int>)
    ensures indexMap == IndexMap(MemberIds(members))
  {
    assert IndexMap(MemberIds(members[..0])) == map[];
    hide IndexMap, MemberIds;
    indexMap := map[];
    var i := 0;
    while i < |members|
      invariant 0 <= i <= |members|
      invariant indexMap == IndexMap(MemberIds(members[..i]))
    {
      MemberIdsAppend(members[..i], members[i]);
      assert members[..i + 1] == members[..i] + [members[i]];
      indexMap, i := indexMap[members[i].id := i], i + 1;
    }
    assert members[..i] == members;
  }

  // ---------------------------------------------------------------- encoding

  predicate EncodableRef(ref: TypeRef) {
    IsInt32(ref.id) && IsString(ref.name) && IsInt32(ref.typeId) && EncodableProperties(ref.props)
  }

  predicate EncodableGroup(group: GroupDef) {
    && IsInt32(group.id) && IsString(group.name) && |group.members| < HALF_WORD
    && forall i :: 0 <= i < |group.members| ==> EncodableRef(group.members[i])
  }

  /** A value of known type. */
  predicate TypedValue(types: TypeTable, c: Chunk<Datum>)
    requires c.ValueChunk?
  {
    && IsInt32(c.valueId) && IsString(c.valueName) && IsInt32(c.typeId) && EncodableProperties(c.props)
    && c.typeId in types && HasType(c.value, types[c.typeId].body)
  }

  /** Its type must not hold a complex number inside a struct, which the decoder misreads. */
  predicate EncodableValue(types: TypeTable, c: Chunk<Datum>)
    requires c.ValueChunk?
  {
    TypedValue(types, c) && NestedComplex(types[c.typeId].body) == 0
  }

  /** A chunk that a section of the given kind may hold. */
  predicate EncodableChunk(kind: Kind, types: TypeTable, c: Chunk<Datum>) {
    match c
    case PropertyChunk(prop) => kind == HeaderKind && EncodableProperty(prop)
    case TypeChunk(def) => kind == TypeKind && EncodableType(def)
    case RefChunk(ref) => (kind == SweepKind || kind == TraceKind) && EncodableRef(ref)
    case GroupChunk(group) => kind == TraceKind && EncodableGroup(group)
    case ValueChunk(_, _, _, _, _) => kind == ValueKind && EncodableValue(types, c)
  }

  function EncRef(ref: TypeRef, skipped: Skipped): Bytes {
    EncWord(TAG_REF) + (EncInt(ref.id) + (EncString(ref.name, FirstOf(skipped))
      + (EncInt(ref.typeId) + EncProperties(ref.props, RestOf(skipped)))))
  }

  function EncMembers(members: seq<TypeRef>, skipped: Skipped): Bytes {
    if members == [] then [] else EncRef(members[0], FirstOf(skipped)) + EncMembers(members[1..], RestOf(skipped))
  }

  /** A negative count reads no member, so an empty group may carry one. */
  function MemberCount(group: GroupDef, word: int): int {
    if group.members == [] && word < 0 then word else |group.members|
  }

  function EncGroup(group: GroupDef, skipped: Skipped): Bytes {
    EncWord(TAG_GROUP) + (EncInt(group.id) + (EncString(group.name, FirstOf(skipped))
      + (EncInt(MemberCount(group, WordOf(FirstOf(RestOf(skipped)))))
         + EncMembers(group.members, RestOf(RestOf(skipped))))))
  }

  function EncValue(c: Chunk<Datum>, skipped: Skipped): Bytes
    requires c.ValueChunk?
  {
    EncWord(TAG_VALUE) + (EncInt(c.valueId) + (EncString(c.valueName, FirstOf(skipped))
      + (EncInt(c.typeId) + (EncDatum(c.value) + EncProperties(c.props, RestOf(skipped))))))
  }

  function EncChunk(c: Chunk<Datum>, skipped: Skipped): Bytes {
    match c
    case PropertyChunk(prop) => EncProperty(prop, skipped)
    case TypeChunk(def) => EncTypeDef(def, skipped)
    case RefChunk(ref) => EncRef(ref, skipped)
    case GroupChunk(group) => EncGroup(group, skipped)
    case ValueChunk(_, _, _, _, _) => EncValue(c, skipped)
  }

  /** The chunk a reader obtains for a chunk that was written. */
  function Denotes(types: TypeTable, c: Chunk<Datum>): Chunk<Value>
  {
    match c
    case PropertyChunk(prop) => PropertyChunk(prop)
    case TypeChunk(def) => TypeChunk(def)
    case RefChunk(ref) => RefChunk(ref)
    case GroupChunk(group) => GroupChunk(group)
    case ValueChunk(id, name, typeId, value, props) =>
      ValueChunk(id, name, typeId, Meaning(value, if typeId in types then types[typeId].body else Int8), props)
  }

  // ---------------------------------------------------------------- round trips

  lemma RefRoundTrip(buf: Bytes, p: int, ref: TypeRef, skipped: Skipped)
    requires EncodableRef(ref) && At(buf, p, EncRef(ref, skipped)) && EndsProperties(buf, p + |EncRef(ref, skipped)|)
    ensures GetInt(buf, p) == Ok(TAG_REF) && ParseRef(buf, p) == Ok((ref, p + |EncRef(ref, skipped)|))
  {
    hide At, GetInt, ParseString, ParseTag, ParseProperties, EncWord, EncInt, EncString, EncProperties,
         EncodableProperties, EndsProperties;
    var tag, id, name := EncWord(TAG_REF), EncInt(ref.id), EncString(ref.name, FirstOf(skipped));
    var typeId, props := EncInt(ref.typeId), EncProperties(ref.props, RestOf(skipped));
    AtSplit(buf, p, tag, id + (name + (typeId + props)));
    AtSplit(buf, p + 4, id, name + (typeId + props));
    AtSplit(buf, p + 8, name, typeId + props);
    var q := p + 8 + |name|;
    AtSplit(buf, q, typeId, props);
    TagAt(buf, p, TAG_REF);
    IntAt(buf, p + 4, ref.id);
    StringAt(buf, p + 8, ref.name, FirstOf(skipped));
    IntAt(buf, q, ref.typeId);
    PropertiesRoundTrip(buf, q + 4, ref.props, RestOf(skipped));
  }

  lemma RefStart(buf: Bytes, p: int, ref: TypeRef, skipped: Skipped)
    requires At(buf, p, EncRef(ref, skipped))
    ensures GetInt(buf, p) == Ok(TAG_REF)
  {
    hide At, GetInt, EncWord, EncInt, EncString, EncProperties;
    AtSplit(buf, p, EncWord(TAG_REF),
            EncInt(ref.id) + (EncString(ref.name, FirstOf(skipped))
              + (EncInt(ref.typeId) + EncProperties(ref.props, RestOf(skipped)))));
    TagAt(buf, p, TAG_REF);
  }

  lemma {:induction false} MembersRoundTrip(buf: Bytes, p: int, members: seq<TypeRef>, skipped: Skipped)
    requires forall i :: 0 <= i < |members| ==> EncodableRef(members[i])
    requires At(buf, p, EncMembers(members, skipped))
    requires members == [] || EndsProperties(buf, p + |EncMembers(members, skipped)|)
    ensures ParseMembers(buf, p, |members|) == Ok((members, p + |EncMembers(members, skipped)|))
    decreases |members|
  {
    hide At, GetInt, EncRef, ParseRef, EncodableRef, EndsProperties;
    if members != [] {
      var first, rest := EncRef(members[0], FirstOf(skipped)), EncMembers(members[1..], RestOf(skipped));
      AtSplit(buf, p, first, rest);
      var q := p + |first|;
      MembersEndBlock(buf, q, members[1..], RestOf(skipped));
      MembersRoundTrip(buf, q, members[1..], RestOf(skipped));
      RefRoundTrip(buf, p, members[0], FirstOf(skipped));
      assert [members[0]] + members[1..] == members;
    }
  }

  lemma {:induction false} MembersEndBlock(buf: Bytes, p: int, members: seq<TypeRef>, skipped: Skipped)
    requires At(buf, p, EncMembers(members, skipped)) && EndsProperties(buf, p + |EncMembers(members, skipped)|)
    ensures EndsProperties(buf, p)
  {
    hide At, GetInt, EncRef;
    if members != [] {
      AtSplit(buf, p, EncRef(members[0], FirstOf(skipped)), EncMembers(members[1..], RestOf(skipped)));
      RefStart(buf, p, members[0], FirstOf(skipped));
    }
  }

  lemma GroupRoundTrip(buf: Bytes, p: int, group: GroupDef, skipped: Skipped)
    requires EncodableGroup(group) && At(buf, p, EncGroup(group, skipped))
    requires group.members == [] || EndsProperties(buf, p + |EncGroup(group, skipped)|)
    ensures GetInt(buf, p) == Ok(TAG_GROUP) && ParseGroup(buf, p) == Ok((group, p + |EncGroup(group, skipped)|))
  {
    hide At, GetInt, ParseString, ParseTag, ParseMembers, EncWord, EncInt, EncString, EncMembers, EncodableRef,
         EndsProperties;
    var tag, id, name := EncWord(TAG_GROUP), EncInt(group.id), EncString(group.name, FirstOf(skipped));
    var n := MemberCount(group, WordOf(FirstOf(RestOf(skipped))));
    var count, members := EncInt(n), EncMembers(group.members, RestOf(RestOf(skipped)));
    AtSplit(buf, p, tag, id + (name + (count + members)));
    AtSplit(buf, p + 4, id, name + (count + members));
    AtSplit(buf, p + 8, name, count + members);
    var q := p + 8 + |name|;
    AtSplit(buf, q, count, members);
    TagAt(buf, p, TAG_GROUP);
    IntAt(buf, p + 4, group.id);
    StringAt(buf, p + 8, group.name, FirstOf(skipped));
    IntAt(buf, q, n);
    MembersRoundTrip(buf, q + 4, group.members, RestOf(RestOf(skipped)));
    if n < 0 {
      NoMembers(buf, q + 4, n);
      NoMembers(buf, q + 4, 0);
    }
  }

  /** The words in front of a written value, the value and its properties. */
  lemma ValuePartsAt(types: TypeTable, buf: Bytes, p: int, c: Chunk<Datum>, skipped: Skipped)
    requires c.ValueChunk? && TypedValue(types, c) && At(buf, p, EncValue(c, skipped))
    ensures GetInt(buf, p) == Ok(TAG_VALUE)
    ensures var q, props := p + 12 + |EncString(c.valueName, FirstOf(skipped))|,
            EncProperties(c.props, RestOf(skipped));
            && ParseValueHead(buf, p) == Ok(((c.valueId, c.valueName, c.typeId), q))
            && At(buf, q, EncDatum(c.value)) && At(buf, q + |EncDatum(c.value)|, props)
            && p + |EncValue(c, skipped)| == q + |EncDatum(c.value)| + |props|
  {
    hide At, GetInt, ParseString, ParseTag, EncWord, EncInt, EncString, EncProperties, EncDatum, EncodableProperties,
         HasType;
    var tag, id, name := EncWord(TAG_VALUE), EncInt(c.valueId), EncString(c.valueName, FirstOf(skipped));
    var typeId, data, props := EncInt(c.typeId), EncDatum(c.value), EncProperties(c.props, RestOf(skipped));
    AtSplit(buf, p, tag, id + (name + (typeId + (data + props))));
    AtSplit(buf, p + 4, id, name + (typeId + (data + props)));
    AtSplit(buf, p + 8, name, typeId + (data + props));
    var q := p + 8 + |name|;
    AtSplit(buf, q, typeId, data + props);
    AtSplit(buf, q + 4, data, props);
    TagAt(buf, p, TAG_VALUE);
    AnyTagAt(buf, p, TAG_VALUE);
    IntAt(buf, p + 4, c.valueId);
    StringAt(buf, p + 8, c.valueName, FirstOf(skipped));
    IntAt(buf, q, c.typeId);
  }

  lemma ValueRoundTrip(types: TypeTable, buf: Bytes, p: int, c: Chunk<Datum>, skipped: Skipped)
    requires c.ValueChunk? && EncodableValue(types, c)
    requires At(buf, p, EncValue(c, skipped)) && EndsProperties(buf, p + |EncValue(c, skipped)|)
    ensures GetInt(buf, p) == Ok(TAG_VALUE)
    ensures ParseValue(types, buf, p) == Ok((Denotes(types, c), p + |EncValue(c, skipped)|))
  {
    hide At, GetInt, ParseValueHead, ParseProperties, DecodeData, EncString, EncProperties, EncValue, EncDatum,
         EncodableProperties, EndsProperties, HasType, Meaning, NestedComplex, DataSize;
    ValuePartsAt(types, buf, p, c, skipped);
    var q, body := p + 12 + |EncString(c.valueName, FirstOf(skipped))|, types[c.typeId].body;
    DatumRoundTrip(c.value, body, buf, q);
    EncDatumSize(c.value, body);
    PropertiesRoundTrip(buf, q + |EncDatum(c.value)|, c.props, RestOf(skipped));
  }

  lemma AnyTagAt(buf: Bytes, p: int, tag: int)
    requires IsWord(tag) && At(buf, p, EncWord(tag))
    ensures ParseTag(buf, p, None) == Ok(p + 4)
  {
    WordAt(buf, p, tag);
  }

  /** Round trip of any chunk a section may hold. */
  lemma ChunkRoundTrip(kind: Kind, types: TypeTable, buf: Bytes, p: int, c: Chunk<Datum>, skipped: Skipped)
    requires EncodableChunk(kind, types, c) && At(buf, p, EncChunk(c, skipped))
    requires c.PropertyChunk? || EndsProperties(buf, p + |EncChunk(c, skipped)|)
    ensures ParseChild(kind, types, buf, p) == Ok((Some(Denotes(types, c)), p + |EncChunk(c, skipped)|))
  {
    hide At, GetInt, ParseProperty, ParseTypeDef, ParseRef, ParseGroup, ParseValue,
         EncProperty, EncTypeDef, EncRef, EncGroup, EncValue,
         EncodableProperty, EncodableType, EncodableRef, EncodableGroup, EncodableValue, EndsProperties;
    match c
    case PropertyChunk(prop) => PropertyAt(buf, p, prop, skipped);
    case TypeChunk(def) => TypeRoundTrip(buf, p, def, skipped);
    case RefChunk(ref) => RefRoundTrip(buf, p, ref, skipped);
    case GroupChunk(group) => GroupRoundTrip(buf, p, group, skipped);
    case ValueChunk(_, _, _, _, _) => ValueRoundTrip(types, buf, p, c, skipped);
  }
}
