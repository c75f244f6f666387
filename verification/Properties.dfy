/** Named properties and the blocks that collect them. */
module Properties {
  import opened Base
  import opened Words
  import opened Keys

  const TAG_STRING_PROPERTY := 33
  const TAG_INT_PROPERTY := 34
  const TAG_DOUBLE_PROPERTY := 35

  datatype PropertyValue = Text(text: Bytes) | Integer(number: int) | Real(bits: int)

  datatype Property = Property(name: Bytes, value: PropertyValue)

  predicate IsPropertyTag(tag: int) {
    TAG_STRING_PROPERTY <= tag <= TAG_DOUBLE_PROPERTY
  }

  // ---------------------------------------------------------------- parsing

  function ParseProperty(buf: Bytes, p: int): (r: Parsed<Property>)
    ensures r.Ok? ==> 0 <= p && p + 4 <= |buf| && p + 12 <= r.value.1
  {
    var tag :- GetInt(buf, p);
    if !IsPropertyTag(tag) then Err(IncorrectChunk(tag))
    else
      var (name, q) :- ParseString(buf, p + 4);
      if tag == TAG_STRING_PROPERTY then
        var (text, end) :- ParseString(buf, q);
        Ok((Property(name, Text(text)), end))
      else if tag == TAG_INT_PROPERTY then
        var number :- GetInt(buf, q);
        Ok((Property(name, Integer(number)), q + 4))
      else
        var bits :- GetBits(buf, q);
        Ok((Property(name, Real(bits)), q + 8))
  }

  /** `Property::deserialize`: the cursor moves over the tag, the name and the value the tag announces. */
  method DeserializeProperty(buf: Bytes, p: int) returns (r: Result<(Property, int)>)
    ensures r == ParseProperty(buf, p)
  {
    hide GetInt, GetBits, ParseString;
    var tag :- GetInt(buf, p);
    if !IsPropertyTag(tag) { return Err(IncorrectChunk(tag)); }
    var q := p + 4;
    var name :- ParseString(buf, q);
    q := name.1;
    var value;
    if tag == TAG_STRING_PROPERTY {
      var text :- ParseString(buf, q);
      value, q := Text(text.0), text.1;
    } else if tag == TAG_INT_PROPERTY {
      var number :- GetInt(buf, q);
      value, q := Integer(number), q + 4;
    } else {
      var bits :- GetBits(buf, q);
      value, q := Real(bits), q + 8;
    }
    return Ok((Property(name.0, value), q));
  }

  /** Properties are read as long as the next word is a property tag. */
  function ParseProperties(buf: Bytes, p: int): (r: Parsed<seq<Property>>)
    ensures r.Ok? ==> p <= r.value.1
    decreases |buf| - p
  {
    var tag :- GetInt(buf, p);
    if IsPropertyTag(tag) then
      var (prop, q) :- ParseProperty(buf, p);
      var (rest, end) :- ParseProperties(buf, q);
      Ok(([prop] + rest, end))
    else
      Ok(([], p))
  }

  // ---------------------------------------------------------------- encoding

  predicate EncodableProperty(prop: Property) {
    && IsString(prop.name)
    && match prop.value
       case Text(text) => IsString(text)
       case Integer(n) => IsInt32(n)
       case Real(bits) => IsBits64(bits)
  }

  predicate EncodableProperties(props: seq<Property>) {
    forall i :: 0 <= i < |props| ==> EncodableProperty(props[i])
  }

  function PropertyTag(prop: Property): (tag: int)
    ensures IsPropertyTag(tag)
  {
    match prop.value
    case Text(_) => TAG_STRING_PROPERTY
    case Integer(_) => TAG_INT_PROPERTY
    case Real(_) => TAG_DOUBLE_PROPERTY
  }

  function EncPropertyValue(v: PropertyValue, skipped: Skipped): Bytes {
    match v
    case Text(text) => EncString(text, skipped)
    case Integer(n) => EncInt(n)
    case Real(bits) => EncBits(bits)
  }

  function EncProperty(prop: Property, skipped: Skipped): Bytes {
    EncInt(PropertyTag(prop)) + (EncString(prop.name, FirstOf(skipped)) + EncPropertyValue(prop.value, RestOf(skipped)))
  }

  function EncProperties(props: seq<Property>, skipped: Skipped): Bytes {
    if props == [] then [] else EncProperty(props[0], FirstOf(skipped)) + EncProperties(props[1..], RestOf(skipped))
  }

  /** The word at `p` exists and does not continue a property block. */
  predicate EndsProperties(buf: Bytes, p: int) {
    var tag := GetInt(buf, p);
    tag.Ok? && !IsPropertyTag(tag.value)
  }

  lemma PropertyAt(buf: Bytes, p: int, prop: Property, skipped: Skipped)
    requires EncodableProperty(prop) && At(buf, p, EncProperty(prop, skipped))
    ensures GetInt(buf, p) == Ok(PropertyTag(prop))
    ensures ParseProperty(buf, p) == Ok((prop, p + |EncProperty(prop, skipped)|))
  {
    hide At, GetInt, GetBits, ParseString, EncInt, EncBits, EncString;
    var tag, name := EncInt(PropertyTag(prop)), EncString(prop.name, FirstOf(skipped));
    var value := EncPropertyValue(prop.value, RestOf(skipped));
    AtSplit(buf, p, tag, name + value);
    AtSplit(buf, p + 4, name, value);
    IntAt(buf, p, PropertyTag(prop));
    StringAt(buf, p + 4, prop.name, FirstOf(skipped));
    var q := p + 4 + |name|;
    match prop.value
    case Text(text) => StringAt(buf, q, text, RestOf(skipped));
    case Integer(n) => IntAt(buf, q, n);
    case Real(bits) => BitsAt(buf, q, bits);
  }

  lemma {:induction false} PropertiesStep(buf: Bytes, p: int, prop: Property, q: int, rest: seq<Property>, end: int)
    requires GetInt(buf, p).Ok? && IsPropertyTag(GetInt(buf, p).value)
    requires ParseProperty(buf, p) == Ok((prop, q)) && ParseProperties(buf, q) == Ok((rest, end))
    ensures ParseProperties(buf, p) == Ok(([prop] + rest, end))
  {
  }

  /** Round trip: a block is read back whole and the parser stops at its end. */
  lemma {:induction false} PropertiesRoundTrip(buf: Bytes, p: int, props: seq<Property>, skipped: Skipped)
    requires EncodableProperties(props) && At(buf, p, EncProperties(props, skipped))
    requires EndsProperties(buf, p + |EncProperties(props, skipped)|)
    ensures ParseProperties(buf, p) == Ok((props, p + |EncProperties(props, skipped)|))
    decreases |props|
  {
    hide At, GetInt, ParseProperty, EncProperty, IsPropertyTag;
    if props != [] {
      var first, rest := EncProperty(props[0], FirstOf(skipped)), EncProperties(props[1..], RestOf(skipped));
      assert EncProperties(props, skipped) == first + rest;
      AtSplit(buf, p, first, rest);
      PropertyAt(buf, p, props[0], FirstOf(skipped));
      var q := p + |first|;
      PropertiesRoundTrip(buf, q, props[1..], RestOf(skipped));
      PropertiesStep(buf, p, props[0], q, props[1..], q + |rest|);
      assert props == [props[0]] + props[1..];
    }
  }

  // ---------------------------------------------------------------- lookup

  function PropertyNames(props: seq<Property>): seq<Bytes> {
    seq(|props|, i requires 0 <= i < |props| => props[i].name)
  }

  function PropertyValues(props: seq<Property>): seq<PropertyValue> {
    seq(|props|, i requires 0 <= i < |props| => props[i].value)
  }

  function PropertyMap(props: seq<Property>): map<Bytes, PropertyValue> {
    LastMap(PropertyNames(props), PropertyValues(props))
  }

  /** What `PropertyBlock::find` returns on a block holding `props`. */
  function FindIn(props: seq<Property>, name: Bytes): Result<PropertyValue> {
    if name in PropertyMap(props) then Ok(PropertyMap(props)[name]) else Err(PropertyNotFound)
  }

  /** `find` converted to a C `int`; only integer properties convert without text or floating point. */
  function FindInt(props: seq<Property>, name: Bytes): Result<int> {
    var v :- FindIn(props, name);
    if v.Integer? then Ok(v.number) else Err(NotModelled)
  }

  /** The number a header gives under a name: that of its last property of the name, if that is an integer. */
  function LastNumber(props: seq<Property>, name: Bytes): Option<int> {
    if props == [] then None
    else
      var last := props[|props| - 1];
      if last.name != name then LastNumber(props[..|props| - 1], name)
      else if last.value.Integer? then Some(last.value.number)
      else None
  }

  lemma {:induction false} LastNumberAt(props: seq<Property>, k: nat, name: Bytes, n: int)
    requires k < |props| && props[k] == Property(name, Integer(n))
    requires forall j :: k < j < |props| ==> props[j].name != name
    ensures LastNumber(props, name) == Some(n)
    decreases |props|
  {
    if k < |props| - 1 {
      LastNumberAt(props[..|props| - 1], k, name, n);
    }
  }

  /** Looking up a number fails for names that no property has, and gives the last number under the others. */
  lemma {:induction false} FindIntExactly(props: seq<Property>, name: Bytes)
    ensures FindInt(props, name)
         == if name !in PropertyNames(props) then Err(PropertyNotFound)
            else match LastNumber(props, name)
                 case Some(n) => Ok(n)
                 case None => Err(NotModelled)
    decreases |props|
  {
    if props != [] {
      var front, last := props[..|props| - 1], props[|props| - 1];
      assert props == front + [last];
      FindIntExactly(front, name);
      PropertyMapAppend(front, last);
      assert PropertyNames(props) == PropertyNames(front) + [last.name];
    }
  }

  lemma PropertyMapAppend(props: seq<Property>, prop: Property)
    ensures PropertyMap(props + [prop]) == PropertyMap(props)[prop.name := prop.value]
  {
    assert PropertyNames(props + [prop]) == PropertyNames(props) + [prop.name];
    assert PropertyValues(props + [prop]) == PropertyValues(props) + [prop.value];
    LastMapAppend(PropertyNames(props), PropertyValues(props), prop.name, prop.value);
  }

  class PropertyBlock {
    var propList: seq<Property>
    var propMap: map<Bytes, PropertyValue>

    ghost predicate Valid()
      reads this
    {
      propMap == PropertyMap(propList)
    }

    constructor ()
      ensures Valid() && propList == []
    {
      propList, propMap := [], map[];
    }

    method AppendProp(prop: Property)
      requires Valid()
      modifies this
      ensures Valid() && propList == old(propList) + [prop]
    {
      PropertyMapAppend(propList, prop);
      propList := propList + [prop];
      propMap := propMap[prop.name := prop.value];
    }

    method Deserialize(buf: Bytes, p: int) returns (r: Result<int>)
      requires Valid()
      modifies this
      ensures Valid()
      ensures match ParseProperties(buf, p)
              case Ok((props, end)) => r == Ok(end) && propList == old(propList) + props
              case Err(e) => r == Err(e)
    {
      hide GetInt, ParseProperty;
      var q := p;
      ghost var done: seq<Property> := [];
      PrependNothing(ParseProperties(buf, p));
      while true
        invariant Valid() && propList == old(propList) + done
        invariant ParseProperties(buf, p) == Prepend(done, ParseProperties(buf, q))
        decreases |buf| - q
      {
        var tag :- GetInt(buf, q);
        if !IsPropertyTag(tag) { break; }
        var parsed :- DeserializeProperty(buf, q);
        var (prop, next) := parsed;
        AppendProp(prop);
        PrependStep(done, prop, ParseProperties(buf, next));
        done := done + [prop];
        q := next;
      }
      return Ok(q);
    }

    function Find(name: Bytes): (r: Result<PropertyValue>)
      requires Valid()
      reads this
      ensures r == FindIn(propList, name)
    {
      if name in propMap then Ok(propMap[name]) else Err(PropertyNotFound)
    }

    predicate HasProp(name: Bytes)
      requires Valid()
      reads this
      ensures HasProp(name) <==> name in PropertyNames(propList)
    {
      LastMapLookup(PropertyNames(propList), PropertyValues(propList), name);
      name in propMap
    }

    /** The first property called `name`; running off the list dereferences its end. */
    method FindProp(name: Bytes) returns (r: Result<Property>)
      ensures r == match FirstIndexOf(PropertyNames(propList), name)
                   case Some(i) => Ok(propList[i])
                   case None => Err(Undefined)
    {
      var i := 0;
      while i < |propList|
        invariant 0 <= i <= |propList|
        invariant forall j :: 0 <= j < i ==> PropertyNames(propList)[j] != name
      {
        if propList[i].name == name {
          assert PropertyNames(propList)[i] == name;
          return Ok(propList[i]);
        }
        i := i + 1;
      }
      return Err(Undefined);
    }
  }

  /** `find` returns the last value appended under a name and fails exactly for names never appended;
      it agrees with `findprop` exactly when the first and last occurrences hold equal values. */
  lemma {:induction false} FindIsLast(props: seq<Property>, name: Bytes)
    ensures FindIn(props, name).Ok? <==> exists i :: 0 <= i < |props| && props[i].name == name
    ensures forall i :: 0 <= i < |props| && props[i].name == name
              && (forall j :: i < j < |props| ==> props[j].name != name)
              ==> FindIn(props, name) == Ok(props[i].value)
    ensures match FirstIndexOf(PropertyNames(props), name)
            case None => FindIn(props, name).Err?
            case Some(f) =>
              var l := LastIndexOf(PropertyNames(props), name).value;
              FindIn(props, name) == Ok(props[f].value) <==> props[f].value == props[l].value
  {
    var names := PropertyNames(props);
    LastMapLookup(names, PropertyValues(props), name);
    hide LastMap, FirstIndexOf, LastIndexOf;
    assert forall i :: 0 <= i < |props| ==> names[i] == props[i].name;
    forall i | 0 <= i < |props| && props[i].name == name
      && (forall j :: i < j < |props| ==> props[j].name != name)
      ensures FindIn(props, name) == Ok(props[i].value)
    {
      LastOccurrence(names, name, i);
    }
  }
}
