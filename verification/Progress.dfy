/** Every chunk takes a positive number of whole words, and a type is never larger than its definition. */
module Progress {
  import opened Words
  import opened Properties
  import opened Types
  import opened Values
  import opened Chunks
  import opened Containers

  /** Two positions a whole number of words apart. */
  predicate Aligned(p: int, q: int) {
    (q - p) % 4 == 0
  }

  lemma AlignedVia(p: int, q: int, r: int)
    requires Aligned(p, q) && Aligned(q, r)
    ensures Aligned(p, r)
  {
  }

  lemma StringAligned(buf: Bytes, p: int)
    requires ParseString(buf, p).Ok?
    ensures Aligned(p, ParseString(buf, p).value.1)
  {
    hide GetInt;
  }

  lemma PropertyAligned(buf: Bytes, p: int)
    requires ParseProperty(buf, p).Ok?
    ensures Aligned(p, ParseProperty(buf, p).value.1)
  {
    hide GetInt, GetBits, ParseString, Aligned;
    StringAligned(buf, p + 4);
    var tag, q := GetInt(buf, p).value, ParseString(buf, p + 4).value.1;
    WordsAligned(p, q);
    if tag == TAG_STRING_PROPERTY {
      StringAligned(buf, q);
      AlignedVia(p, q, ParseString(buf, q).value.1);
    }
  }

  /** Steps of one or two words keep the alignment. */
  lemma WordsAligned(p: int, q: int)
    ensures Aligned(p + 4, q) ==> Aligned(p, q)
    ensures Aligned(p + 8, q) ==> Aligned(p, q)
    ensures Aligned(p, q) ==> Aligned(p, q + 4) && Aligned(p, q + 8)
  {
  }

  lemma {:induction false} PropertiesAligned(buf: Bytes, p: int)
    requires ParseProperties(buf, p).Ok?
    ensures Aligned(p, ParseProperties(buf, p).value.1)
    ensures ParseProperties(buf, p).value.1 + 4 <= |buf|
    decreases |buf| - p
  {
    hide GetInt, ParseProperty, IsPropertyTag;
    if IsPropertyTag(GetInt(buf, p).value) {
      PropertyAligned(buf, p);
      PropertiesAligned(buf, ParseProperty(buf, p).value.1);
    }
  }

  lemma TypeHeadAligned(buf: Bytes, p: int)
    requires ParseTypeHead(buf, p).Ok?
    ensures Aligned(p, ParseTypeHead(buf, p).value.1)
  {
    hide GetInt, ParseString, ParseTag, Aligned;
    StringAligned(buf, p + 8);
    WordsAligned(p, ParseString(buf, p + 8).value.1);
  }

  /** A definition takes whole words, ends inside the buffer, and describes data no larger than itself,
      so that sizes computed from a file below 2 GiB stay within a C `int`. */
  lemma {:induction false} TypeDefProgress(buf: Bytes, p: int)
    requires ParseTypeDef(buf, p).Ok?
    ensures Aligned(p, ParseTypeDef(buf, p).value.1) && p + 20 <= ParseTypeDef(buf, p).value.1 <= |buf| - 4
    ensures DataSize(ParseTypeDef(buf, p).value.0.body) <= ParseTypeDef(buf, p).value.1 - p
    decreases |buf| - p, 0
  {
    hide GetInt, ParseTypeHead, ParseProperties, Aligned, ParseFields;
    TypeHeadAligned(buf, p);
    var ((id, name, typeId), q) := ParseTypeHead(buf, p).value;
    var q2 := ParseBody(buf, q, typeId).value.1;
    PropertiesAligned(buf, q2);
    if typeId == TYPEID_STRUCT {
      FieldsProgress(buf, q);
      AlignedVia(p, q, q2);
    }
    AlignedVia(p, q2, ParseProperties(buf, q2).value.1);
  }

  lemma {:induction false} FieldsProgress(buf: Bytes, p: int)
    requires ParseFields(buf, p).Ok?
    ensures Aligned(p, ParseFields(buf, p).value.1) && p + 4 <= ParseFields(buf, p).value.1
    ensures FieldsSize(ParseFields(buf, p).value.0) <= ParseFields(buf, p).value.1 - p
    decreases |buf| - p, 1
  {
    hide GetInt, ParseTypeDef, Aligned, DataSize, FieldsSize;
    if GetInt(buf, p).value == TAG_TYPE {
      TypeDefProgress(buf, p);
      var (field, q) := ParseTypeDef(buf, p).value;
      FieldsProgress(buf, q);
      var (rest, end) := ParseFields(buf, q).value;
      AlignedVia(p, q, end);
      FieldsSizeFirst(field, rest);
    } else {
      NoFieldsProgress(p);
    }
  }

  lemma {:induction false} FieldsSizeFirst(field: TypeDef, rest: seq<TypeDef>)
    ensures FieldsSize([field] + rest) == DataSize(field.body) + FieldsSize(rest)
  {
    assert ([field] + rest)[1..] == rest;
  }

  lemma NoFieldsProgress(p: int)
    ensures Aligned(p, p + 4) && FieldsSize([]) == 0
  {
  }

  lemma RefAligned(buf: Bytes, p: int)
    requires ParseRef(buf, p).Ok?
    ensures Aligned(p, ParseRef(buf, p).value.1)
  {
    hide GetInt, ParseString, ParseTag, ParseProperties, Aligned;
    StringAligned(buf, p + 8);
    var q := ParseString(buf, p + 8).value.1;
    WordsAligned(p, q);
    PropertiesAligned(buf, q + 4);
    AlignedVia(p, q + 4, ParseProperties(buf, q + 4).value.1);
  }

  lemma {:induction false} MembersAligned(buf: Bytes, p: int, n: int)
    requires ParseMembers(buf, p, n).Ok?
    ensures Aligned(p, ParseMembers(buf, p, n).value.1)
    decreases n
  {
    hide GetInt, ParseRef;
    if n > 0 {
      RefAligned(buf, p);
      MembersAligned(buf, ParseRef(buf, p).value.1, n - 1);
    }
  }

  lemma GroupAligned(buf: Bytes, p: int)
    requires ParseGroup(buf, p).Ok?
    ensures Aligned(p, ParseGroup(buf, p).value.1)
  {
    hide GetInt, ParseString, ParseTag, ParseMembers, Aligned;
    StringAligned(buf, p + 8);
    var q := ParseString(buf, p + 8).value.1;
    var count := GetInt(buf, q).value;
    WordsAligned(p, q);
    MembersAligned(buf, q + 4, count);
    AlignedVia(p, q + 4, ParseMembers(buf, q + 4, count).value.1);
  }

  lemma DataAligned(body: TypeBody, buf: Bytes, p: int)
    requires DecodeData(body, buf, p).Ok?
    ensures Aligned(p, DecodeData(body, buf, p).value.1)
  {
    hide DecodeData, DataSize, NestedComplex;
    DataConsumes(body, buf, p);
    var k := DataSize(body) / 4 - 2 * NestedComplex(body);
    assert DecodeData(body, buf, p).value.1 - p == 4 * k;
    WholeWords(k);
  }

  lemma WholeWords(k: int)
    ensures 4 * k % 4 == 0
  {
  }

  lemma ValueAligned(types: TypeTable, buf: Bytes, p: int)
    requires ParseValue(types, buf, p).Ok?
    ensures Aligned(p, ParseValue(types, buf, p).value.1)
  {
    hide GetInt, ParseString, ParseTag, ParseProperties, Aligned, DecodeData;
    StringAligned(buf, p + 8);
    var q := ParseString(buf, p + 8).value.1;
    var body := types[GetInt(buf, q).value].body;
    WordsAligned(p, q);
    DataAligned(body, buf, q + 4);
    var q2 := DecodeData(body, buf, q + 4).value.1;
    PropertiesAligned(buf, q2);
    AlignedVia(p, q + 4, q2);
    AlignedVia(p, q2, ParseProperties(buf, q2).value.1);
  }

  /** Every child parse that succeeds, an end marker included, consumes a positive number of whole words. */
  lemma ChildProgress(kind: Kind, types: TypeTable, buf: Bytes, p: int)
    requires ParseChild(kind, types, buf, p).Ok?
    ensures p + 4 <= ParseChild(kind, types, buf, p).value.1 && Aligned(p, ParseChild(kind, types, buf, p).value.1)
  {
    hide GetInt, ParseProperty, ParseTypeDef, ParseRef, ParseGroup, ParseValue;
    var tag := GetInt(buf, p).value;
    match kind
    case HeaderKind => if IsPropertyTag(tag) { PropertyAligned(buf, p); }
    case TypeKind => TypeDefProgress(buf, p);
    case SweepKind => if tag == TAG_REF { RefAligned(buf, p); }
    case TraceKind => if tag == TAG_REF { RefAligned(buf, p); } else { GroupAligned(buf, p); }
    case ValueKind => ValueAligned(types, buf, p);
  }

  /** Inside a section every cursor stays word-aligned with its start, and each child moves it by at least a word. */
  lemma {:induction false} ChildrenProgress(kind: Kind, types: TypeTable, buf: Bytes, p: int, bound: int)
    requires ParseChildren(kind, types, buf, p, bound).Ok?
    ensures var (children, q) := ParseChildren(kind, types, buf, p, bound).value;
            Aligned(p, q) && p + 4 * |children| <= q
    decreases |buf| - p
  {
    hide ParseChild, Aligned;
    if p < bound {
      ChildProgress(kind, types, buf, p);
      var (child, q) := ParseChild(kind, types, buf, p).value;
      if child.Some? {
        ChildrenProgress(kind, types, buf, q, bound);
        AlignedVia(p, q, ParseChildren(kind, types, buf, q, bound).value.1);
      }
    } else {
      AlignedSelf(p);
    }
  }

  lemma AlignedSelf(p: int)
    ensures Aligned(p, p)
  {
  }
}
