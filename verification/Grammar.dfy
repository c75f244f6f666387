/** What the parsers accept: exactly the encodings, so nothing of a file is ignored but the parts named `Skipped`. */
module Grammar {
  import opened Base
  import opened Words
  import opened Properties
  import opened Types
  import opened Chunks

  // ---------------------------------------------------------------- words and strings

  lemma AtJoin(buf: Bytes, p: int, a: Bytes, b: Bytes)
    requires At(buf, p, a) && At(buf, p + |a|, b)
    ensures At(buf, p, a + b)
  {
    assert buf[p..p + |a + b|] == buf[p..p + |a|] + buf[p + |a|..p + |a| + |b|];
  }

  lemma WordFrom(buf: Bytes, p: int)
    requires GetWord(buf, p).Ok?
    ensures At(buf, p, EncWord(GetWord(buf, p).value))
  {
    var a, b, c, d := buf[p] as int, buf[p + 1] as int, buf[p + 2] as int, buf[p + 3] as int;
    FourBytes(a, b, c, d);
    assert buf[p..p + 4] == [buf[p], buf[p + 1], buf[p + 2], buf[p + 3]];
  }

  lemma FourBytes(a: int, b: int, c: int, d: int)
    requires 0 <= a < 256 && 0 <= b < 256 && 0 <= c < 256 && 0 <= d < 256
    ensures var w := ((a * 256 + b) * 256 + c) * 256 + d;
            EncWord(w) == [a, b, c, d]
  {
    var w := ((a * 256 + b) * 256 + c) * 256 + d;
    assert w / 256 == (a * 256 + b) * 256 + c && w % 256 == d;
    assert ((a * 256 + b) * 256 + c) / 256 == a * 256 + b && ((a * 256 + b) * 256 + c) % 256 == c;
    assert (a * 256 + b) / 256 == a && (a * 256 + b) % 256 == b;
  }

  lemma IntFrom(buf: Bytes, p: int)
    requires GetInt(buf, p).Ok?
    ensures At(buf, p, EncInt(GetInt(buf, p).value))
  {
    hide At, EncWord;
    WordFrom(buf, p);
    assert Unsigned(Signed(GetWord(buf, p).value)) == GetWord(buf, p).value;
  }

  lemma TagFrom(buf: Bytes, p: int, tag: int)
    requires ParseTag(buf, p, Some(tag)).Ok?
    ensures At(buf, p, EncWord(tag)) && ParseTag(buf, p, Some(tag)) == Ok(p + 4)
  {
    hide At, EncWord;
    WordFrom(buf, p);
  }

  lemma BitsFrom(buf: Bytes, p: int)
    requires GetBits(buf, p).Ok?
    ensures At(buf, p, EncBits(GetBits(buf, p).value))
  {
    hide At, GetWord, EncWord;
    WordFrom(buf, p);
    WordFrom(buf, p + 4);
    var high, low := GetWord(buf, p).value, GetWord(buf, p + 4).value;
    TwoWords(high, low);
    AtJoin(buf, p, EncWord(high), EncWord(low));
  }

  lemma TwoWords(high: int, low: int)
    requires IsWord(low)
    ensures (high * WORD + low) / WORD == high && (high * WORD + low) % WORD == low
  {
  }

  lemma StringFrom(buf: Bytes, p: int) returns (skipped: Skipped)
    requires ParseString(buf, p).Ok? && ParseString(buf, p).value.1 <= |buf|
    ensures var (s, end) := ParseString(buf, p).value;
            IsString(s) && At(buf, p, EncString(s, skipped)) && end == p + |EncString(s, skipped)|
  {
    hide GetInt, EncInt;
    var (s, end) := ParseString(buf, p).value;
    IntFrom(buf, p);
    skipped := PaddingBytes(buf[p + 4 + |s|..end]);
    AtJoin(buf, p, EncInt(|s|), s);
    AtJoin(buf, p, EncInt(|s|) + s, PaddingOf(skipped, |s|));
  }

  // ---------------------------------------------------------------- properties

  lemma PropertyValueFrom(buf: Bytes, p: int, q: int, prop: Property, end: int) returns (skipped: Skipped)
    requires ParseProperty(buf, p) == Ok((prop, end)) && end <= |buf|
    requires ParseString(buf, p + 4).Ok? && q == ParseString(buf, p + 4).value.1
    ensures At(buf, q, EncPropertyValue(prop.value, skipped)) && end == q + |EncPropertyValue(prop.value, skipped)|
    ensures GetInt(buf, p) == Ok(PropertyTag(prop)) && prop.name == ParseString(buf, p + 4).value.0
    ensures match prop.value
            case Text(text) => IsString(text)
            case Integer(n) => IsInt32(n)
            case Real(bits) => IsBits64(bits)
  {
    hide At, GetInt, GetBits, ParseString, EncInt, EncBits, EncString;
    skipped := Nothing;
    match prop.value
    case Text(_) => skipped := StringFrom(buf, q);
    case Integer(_) => IntFrom(buf, q);
    case Real(_) => BitsFrom(buf, q);
  }

  lemma PropertyFrom(buf: Bytes, p: int) returns (skipped: Skipped)
    requires ParseProperty(buf, p).Ok? && ParseProperty(buf, p).value.1 <= |buf|
    ensures var (prop, end) := ParseProperty(buf, p).value;
            && EncodableProperty(prop) && GetInt(buf, p) == Ok(PropertyTag(prop))
            && At(buf, p, EncProperty(prop, skipped)) && end == p + |EncProperty(prop, skipped)|
  {
    hide At, GetInt, ParseString, EncInt, EncPropertyValue, EncString, ParseProperty;
    var (prop, end) := ParseProperty(buf, p).value;
    NameParsed(buf, p);
    var q := ParseString(buf, p + 4).value.1;
    var value := PropertyValueFrom(buf, p, q, prop, end);
    var name := StringFrom(buf, p + 4);
    skipped := Parts(name, value);
    IntFrom(buf, p);
    AtJoin(buf, p + 4, EncString(prop.name, name), EncPropertyValue(prop.value, value));
    AtJoin(buf, p, EncInt(PropertyTag(prop)), EncString(prop.name, name) + EncPropertyValue(prop.value, value));
  }

  lemma NameParsed(buf: Bytes, p: int)
    requires ParseProperty(buf, p).Ok?
    ensures ParseString(buf, p + 4).Ok? && ParseString(buf, p + 4).value.1 <= ParseProperty(buf, p).value.1
  {
    hide GetInt, GetBits, ParseString;
  }

  lemma {:induction false} PropertiesFrom(buf: Bytes, p: int) returns (skipped: Skipped)
    requires ParseProperties(buf, p).Ok?
    ensures var (props, end) := ParseProperties(buf, p).value;
            && EncodableProperties(props) && EndsProperties(buf, end)
            && At(buf, p, EncProperties(props, skipped)) && end == p + |EncProperties(props, skipped)|
    decreases |buf| - p
  {
    hide GetInt, ParseProperty, EncProperty, EncodableProperty, At;
    if IsPropertyTag(GetInt(buf, p).value) {
      var (prop, q) := ParseProperty(buf, p).value;
      var (rest, end) := ParseProperties(buf, q).value;
      var first := PropertyFrom(buf, p);
      var more := PropertiesFrom(buf, q);
      skipped := Parts(first, more);
      AtJoin(buf, p, EncProperty(prop, first), EncProperties(rest, more));
      assert ([prop] + rest)[1..] == rest;
    } else {
      skipped := Nothing;
      AtNothing(buf, p);
    }
  }

  lemma AtNothing(buf: Bytes, p: int)
    requires 0 <= p <= |buf|
    ensures At(buf, p, [])
  {
  }

  // ---------------------------------------------------------------- type definitions

  lemma TypeHeadFrom(buf: Bytes, p: int, t: TypeDef) returns (skipped: Skipped)
    requires ParseTypeHead(buf, p).Ok? && ParseTypeHead(buf, p).value.0 == (t.id, t.name, TypeIdOf(t.body))
    ensures IsInt32(t.id) && IsString(t.name)
    ensures At(buf, p, EncTypeHead(t, skipped)) && ParseTypeHead(buf, p).value.1 == p + |EncTypeHead(t, skipped)|
  {
    hide At, GetInt, ParseString, ParseTag, EncWord, EncInt, EncString;
    TagFrom(buf, p, TAG_TYPE);
    var (name, q) := ParseString(buf, p + 8).value;
    IntFrom(buf, p + 4);
    IntFrom(buf, q);
    IntFrom(buf, q + 4);
    var pad := StringFrom(buf, p + 8);
    var word := GetInt(buf, q).value;
    skipped := Parts(pad, SkippedWord(word));
    var id, s, arrayType, typeId := EncInt(t.id), EncString(name, pad), EncInt(word), EncInt(TypeIdOf(t.body));
    AtJoin(buf, q, arrayType, typeId);
    AtJoin(buf, p + 8, s, arrayType + typeId);
    AtJoin(buf, p + 4, id, s + (arrayType + typeId));
    AtJoin(buf, p, EncWord(TAG_TYPE), id + (s + (arrayType + typeId)));
  }

  /** What an accepted definition consists of. */
  lemma {:induction false} TypeDefParts(buf: Bytes, p: int)
    requires ParseTypeDef(buf, p).Ok?
    ensures ParseTypeHead(buf, p).Ok?
    ensures var t := ParseTypeDef(buf, p).value.0;
            var q := ParseTypeHead(buf, p).value.1;
            && ParseTypeHead(buf, p).value.0 == (t.id, t.name, TypeIdOf(t.body))
            && (t.body.Struct? ==> ParseFields(buf, q).Ok? && ParseFields(buf, q).value.0 == t.body.fields)
            && var r := if t.body.Struct? then ParseFields(buf, q).value.1 else q;
               ParseProperties(buf, r) == Ok((t.props, ParseTypeDef(buf, p).value.1))
  {
    hide ParseTypeHead, ParseFields, ParseProperties;
  }

  lemma {:induction false} TypeDefFrom(buf: Bytes, p: int) returns (skipped: Skipped)
    requires ParseTypeDef(buf, p).Ok?
    ensures var (t, end) := ParseTypeDef(buf, p).value;
            && EncodableType(t) && EndsProperties(buf, end)
            && At(buf, p, EncTypeDef(t, skipped)) && end == p + |EncTypeDef(t, skipped)|
    decreases |buf| - p, 0
  {
    hide At, ParseTypeHead, ParseFields, ParseProperties, EncTypeHead, EncFields, EncProperties, EncodableProperties,
         EncWord, EndsProperties, ParseTypeDef;
    TypeDefParts(buf, p);
    var (t, end) := ParseTypeDef(buf, p).value;
    var q := ParseTypeHead(buf, p).value.1;
    var head := TypeHeadFrom(buf, p, t);
    var r, fields, body := q, Nothing, [];
    if t.body.Struct? {
      assert 0 <= p && p + 4 <= |buf| && p + 20 <= q;
      fields := FieldsFrom(buf, q);
      r := ParseFields(buf, q).value.1;
      body := EncFields(t.body.fields, fields) + EncWord(TAG_STRUCT_END);
      AtJoin(buf, q, EncFields(t.body.fields, fields), EncWord(TAG_STRUCT_END));
    }
    var props := PropertiesFrom(buf, r);
    if !t.body.Struct? {
      AtStart(buf, q, EncProperties(t.props, props));
    }
    skipped := Parts(head, Parts(fields, props));
    AtJoin(buf, q, body, EncProperties(t.props, props));
    AtJoin(buf, p, EncTypeHead(t, head), body + EncProperties(t.props, props));
  }

  lemma AtStart(buf: Bytes, p: int, s: Bytes)
    requires At(buf, p, s)
    ensures At(buf, p, [])
  {
  }

  lemma {:induction false} FieldsFrom(buf: Bytes, p: int) returns (skipped: Skipped)
    requires ParseFields(buf, p).Ok?
    ensures var (fields, end) := ParseFields(buf, p).value;
            && EncodableFields(fields) && At(buf, p, EncFields(fields, skipped))
            && At(buf, p + |EncFields(fields, skipped)|, EncWord(TAG_STRUCT_END))
               && end == p + |EncFields(fields, skipped)| + 4
    decreases |buf| - p, 1
  {
    hide GetInt, ParseTypeDef, EncTypeDef, EncodableType, At, EncWord;
    IntFrom(buf, p);
    if GetInt(buf, p).value == TAG_TYPE {
      var (field, q) := ParseTypeDef(buf, p).value;
      var (rest, end) := ParseFields(buf, q).value;
      var first := TypeDefFrom(buf, p);
      var more := FieldsFrom(buf, q);
      skipped := Parts(first, more);
      AtJoin(buf, p, EncTypeDef(field, first), EncFields(rest, more));
      assert ([field] + rest)[1..] == rest;
    } else {
      skipped := Nothing;
      AtNothing(buf, p);
    }
  }

  /** The bytes from `p` to `end` are an encoding of the definition. */
  ghost predicate WritesType(buf: Bytes, p: int, t: TypeDef, end: int, skipped: Skipped) {
    At(buf, p, EncTypeDef(t, skipped)) && end == p + |EncTypeDef(t, skipped)|
  }

  /** A definition is parsed from exactly the bytes that encode it, with any array type words and any padding, in
      front of a word that does not continue its properties. */
  lemma {:induction false} TypeDefExactly(buf: Bytes, p: int, t: TypeDef, end: int)
    ensures ParseTypeDef(buf, p) == Ok((t, end)) <==>
            EncodableType(t) && EndsProperties(buf, end) && exists skipped :: WritesType(buf, p, t, end, skipped)
  {
    hide At, ParseTypeDef, EncTypeDef, EncodableType, EndsProperties;
    if ParseTypeDef(buf, p) == Ok((t, end)) {
      var skipped := TypeDefFrom(buf, p);
      assert WritesType(buf, p, t, end, skipped);
    } else if EncodableType(t) && EndsProperties(buf, end) && exists skipped :: WritesType(buf, p, t, end, skipped) {
      var skipped :| WritesType(buf, p, t, end, skipped);
      TypeRoundTrip(buf, p, t, skipped);
    }
  }

  // ---------------------------------------------------------------- references and groups

  lemma RefFrom(buf: Bytes, p: int) returns (skipped: Skipped)
    requires ParseRef(buf, p).Ok?
    ensures var (ref, end) := ParseRef(buf, p).value;
            && EncodableRef(ref) && EndsProperties(buf, end)
            && At(buf, p, EncRef(ref, skipped)) && end == p + |EncRef(ref, skipped)|
  {
    hide At, GetInt, ParseString, ParseTag, ParseProperties, EncWord, EncInt, EncString, EncProperties,
         EncodableProperties, EndsProperties;
    TagFrom(buf, p, TAG_REF);
    var (ref, end) := ParseRef(buf, p).value;
    var q := ParseString(buf, p + 8).value.1;
    IntFrom(buf, p + 4);
    IntFrom(buf, q);
    var pad := StringFrom(buf, p + 8);
    var more := PropertiesFrom(buf, q + 4);
    skipped := Parts(pad, more);
    var id, name, typeId, props := EncInt(ref.id), EncString(ref.name, pad), EncInt(ref.typeId),
        EncProperties(ref.props, more);
    AtJoin(buf, q, typeId, props);
    AtJoin(buf, p + 8, name, typeId + props);
    AtJoin(buf, p + 4, id, name + (typeId + props));
    AtJoin(buf, p, EncWord(TAG_REF), id + (name + (typeId + props)));
  }

  ghost predicate WritesRef(buf: Bytes, p: int, ref: TypeRef, end: int, skipped: Skipped) {
    At(buf, p, EncRef(ref, skipped)) && end == p + |EncRef(ref, skipped)|
  }

  /** The same for a reference. */
  lemma RefExactly(buf: Bytes, p: int, ref: TypeRef, end: int)
    ensures ParseRef(buf, p) == Ok((ref, end)) <==>
            EncodableRef(ref) && EndsProperties(buf, end) && exists skipped :: WritesRef(buf, p, ref, end, skipped)
  {
    hide At, ParseRef, EncRef, EncodableRef, EndsProperties;
    if ParseRef(buf, p) == Ok((ref, end)) {
      var skipped := RefFrom(buf, p);
      assert WritesRef(buf, p, ref, end, skipped);
    } else if EncodableRef(ref) && EndsProperties(buf, end) && exists skipped :: WritesRef(buf, p, ref, end, skipped) {
      var skipped :| WritesRef(buf, p, ref, end, skipped);
      RefRoundTrip(buf, p, ref, skipped);
    }
  }

  lemma {:induction false} MembersFrom(buf: Bytes, p: int, n: int) returns (skipped: Skipped)
    requires ParseMembers(buf, p, n).Ok? && 0 <= p <= |buf|
    ensures var (members, end) := ParseMembers(buf, p, n).value;
            && |members| == (if n < 0 then 0 else n) && (forall i :: 0 <= i < |members| ==> EncodableRef(members[i]))
            && At(buf, p, EncMembers(members, skipped)) && end == p + |EncMembers(members, skipped)|
            && (members == [] || EndsProperties(buf, end))
    decreases n
  {
    hide GetInt, ParseRef, EncRef, EncodableRef, At, EndsProperties;
    if n > 0 {
      var (ref, q) := ParseRef(buf, p).value;
      var first := RefFrom(buf, p);
      assert 0 <= q <= |buf| by { BlockEndInside(buf, q); }
      var more := MembersFrom(buf, q, n - 1);
      var (rest, end) := ParseMembers(buf, q, n - 1).value;
      skipped := Parts(first, more);
      AtJoin(buf, p, EncRef(ref, first), EncMembers(rest, more));
      assert ([ref] + rest)[1..] == rest;
    } else {
      skipped := Nothing;
      AtNothing(buf, p);
    }
  }

  lemma BlockEndInside(buf: Bytes, p: int)
    requires EndsProperties(buf, p)
    ensures 0 <= p <= |buf|
  {
  }

  lemma GroupFrom(buf: Bytes, p: int) returns (skipped: Skipped)
    requires ParseGroup(buf, p).Ok?
    ensures var (group, end) := ParseGroup(buf, p).value;
            && EncodableGroup(group) && (group.members == [] || EndsProperties(buf, end))
            && At(buf, p, EncGroup(group, skipped)) && end == p + |EncGroup(group, skipped)|
  {
    hide At, GetInt, ParseString, ParseTag, ParseMembers, EncWord, EncInt, EncString, EncMembers, EncodableRef,
         EndsProperties;
    TagFrom(buf, p, TAG_GROUP);
    var (group, end) := ParseGroup(buf, p).value;
    var q := ParseString(buf, p + 8).value.1;
    IntFrom(buf, p + 4);
    IntFrom(buf, q);
    var n := GetInt(buf, q).value;
    var pad := StringFrom(buf, p + 8);
    var more := MembersFrom(buf, q + 4, n);
    skipped := Parts(pad, Parts(SkippedWord(n), more));
    var id, name, count := EncInt(group.id), EncString(group.name, pad), EncInt(MemberCount(group, n));
    var members := EncMembers(group.members, more);
    AtJoin(buf, q, count, members);
    AtJoin(buf, p + 8, name, count + members);
    AtJoin(buf, p + 4, id, name + (count + members));
    AtJoin(buf, p, EncWord(TAG_GROUP), id + (name + (count + members)));
  }

  ghost predicate WritesGroup(buf: Bytes, p: int, group: GroupDef, end: int, skipped: Skipped) {
    At(buf, p, EncGroup(group, skipped)) && end == p + |EncGroup(group, skipped)|
  }

  /** The same for a group; behind a group without members anything may follow. */
  lemma GroupExactly(buf: Bytes, p: int, group: GroupDef, end: int)
    ensures ParseGroup(buf, p) == Ok((group, end)) <==>
            && EncodableGroup(group) && (group.members == [] || EndsProperties(buf, end))
            && exists skipped :: WritesGroup(buf, p, group, end, skipped)
  {
    hide At, ParseGroup, EncGroup, EncodableGroup, EndsProperties;
    if ParseGroup(buf, p) == Ok((group, end)) {
      var skipped := GroupFrom(buf, p);
      assert WritesGroup(buf, p, group, end, skipped);
    } else if && EncodableGroup(group) && (group.members == [] || EndsProperties(buf, end))
              && exists skipped :: WritesGroup(buf, p, group, end, skipped) {
      var skipped :| WritesGroup(buf, p, group, end, skipped);
      GroupRoundTrip(buf, p, group, skipped);
    }
  }

  ghost predicate WritesProperties(buf: Bytes, p: int, props: seq<Property>, end: int, skipped: Skipped) {
    At(buf, p, EncProperties(props, skipped)) && end == p + |EncProperties(props, skipped)|
  }

  /** The same for a block of properties. */
  lemma {:induction false} PropertiesExactly(buf: Bytes, p: int, props: seq<Property>, end: int)
    ensures ParseProperties(buf, p) == Ok((props, end)) <==>
            && EncodableProperties(props) && EndsProperties(buf, end)
            && exists skipped :: WritesProperties(buf, p, props, end, skipped)
  {
    hide At, ParseProperties, EncProperties, EncodableProperties, EndsProperties;
    if ParseProperties(buf, p) == Ok((props, end)) {
      var skipped := PropertiesFrom(buf, p);
      assert WritesProperties(buf, p, props, end, skipped);
    } else if && EncodableProperties(props) && EndsProperties(buf, end)
              && exists skipped :: WritesProperties(buf, p, props, end, skipped) {
      var skipped :| WritesProperties(buf, p, props, end, skipped);
      PropertiesRoundTrip(buf, p, props, skipped);
    }
  }
}
