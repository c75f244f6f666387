/** Sections: lists of chunks bounded by an end position or an end marker, and their indexes. */
module Containers {
  import opened Base
  import opened Words
  import opened Keys
  import opened Properties
  import opened Types
  import opened Values
  import opened Chunks

  const TAG_SECTION := 21
  const TAG_SUBSECTION := 22
  const TAG_INDEX := 19

  type Children = seq<Chunk<Value>>

  function Names(children: Children): seq<Bytes> {
    seq(|children|, i requires 0 <= i < |children| => children[i].Name())
  }

  function Ids(children: Children): seq<int> {
    seq(|children|, i requires 0 <= i < |children| => children[i].Id())
  }

  /** `idmap`: the last child with an identifier. */
  function IdMap(children: Children): map<int, Chunk<Value>> {
    LastMap(Ids(children), children)
  }

  lemma IdMapAppend(children: Children, child: Chunk<Value>)
    ensures IdMap(children + [child]) == IdMap(children)[child.Id() := child]
  {
    assert Ids(children + [child]) == Ids(children) + [child.Id()];
    LastMapAppend(Ids(children), children, child.Id(), child);
  }

  lemma NameMapAppend(children: Children, child: Chunk<Value>)
    ensures IndexMap(Names(children + [child])) == IndexMap(Names(children))[child.Name() := |children|]
  {
    assert Names(children + [child]) == Names(children) + [child.Name()];
    IndexMapAppend(Names(children), child.Name());
  }

  // ---------------------------------------------------------------- parsing

  /** Children are read while the position is before `bound`, or up to an end marker. */
  function ParseChildren(kind: Kind, types: TypeTable, buf: Bytes, p: int, bound: int): (r: Parsed<Children>)
    ensures r.Ok? ==> p <= r.value.1
    decreases |buf| - p
  {
    if p < bound then
      var (child, q) :- ParseChild(kind, types, buf, p);
      if child.None? then Ok(([], q)) else Prepend([child.value], ParseChildren(kind, types, buf, q, bound))
    else
      Ok(([], p))
  }

  /** `SimpleContainer::deserialize`, used by the header and the sweep section. */
  function ParseSimple(kind: Kind, buf: Bytes, abspos: int): Parsed<Children> {
    var q :- ParseTag(buf, abspos, Some(TAG_SECTION));
    var endpos :- GetWord(buf, q);
    ParseChildren(kind, map[], buf, q + 4, endpos)
  }

  /** The tag an indexed section insists on; the section of unswept values accepts any. */
  function SectionTag(kind: Kind): Option<int> {
    if kind == ValueKind then None else Some(TAG_SECTION)
  }

  /** The four words in front of an indexed section's children: its end and the end of the children. */
  function ParseIndexedHead(kind: Kind, buf: Bytes, abspos: int): Result<(int, int)> {
    var q :- ParseTag(buf, abspos, SectionTag(kind));
    var endpos :- GetWord(buf, q);
    var subtype :- GetWord(buf, q + 4);
    if subtype != TAG_SUBSECTION then Err(AssertionFailed)
    else
      var subendpos :- GetWord(buf, q + 8);
      Ok((endpos, subendpos))
  }

  /** An index is skipped by its size. */
  function ParseIndex(buf: Bytes, p: int): Result<int> {
    var q :- ParseTag(buf, p, Some(TAG_INDEX));
    var size :- GetWord(buf, q);
    Ok(q + 4 + size)
  }

  /** `IndexedContainer::deserialize`; the position returned is the section's declared end. */
  function ParseIndexed(kind: Kind, types: TypeTable, buf: Bytes, abspos: int): Parsed<Children> {
    var (endpos, subendpos) :- ParseIndexedHead(kind, buf, abspos);
    var (children, q) :- ParseChildren(kind, types, buf, abspos + 16, subendpos);
    var afterIndex :- ParseIndex(buf, q);
    Ok((children, endpos))
  }

  method DeserializeChildren(kind: Kind, types: TypeTable, buf: Bytes, p: int, bound: int)
    returns (r: Result<(Children, int)>)
    ensures r == ParseChildren(kind, types, buf, p, bound)
  {
    hide ParseChild;
    var q, children := p, [];
    PrependNothing(ParseChildren(kind, types, buf, p, bound));
    while q < bound
      invariant ParseChildren(kind, types, buf, p, bound)
             == Prepend(children, ParseChildren(kind, types, buf, q, bound))
      decreases |buf| - q
    {
      var parsed :- DeserializeChild(kind, types, buf, q);
      var (child, next) := parsed;
      if child.None? {
        assert children + [] == children;
        return Ok((children, next));
      }
      PrependStep(children, child.value, ParseChildren(kind, types, buf, next, bound));
      children, q := children + [child.value], next;
    }
    assert children + [] == children;
    return Ok((children, q));
  }

  /** `SimpleContainer`; the sweep section is one. */
  class SimpleContainer {
    var children: Children

    constructor ()
      ensures children == []
    {
      children := [];
    }

    method Deserialize(kind: Kind, buf: Bytes, abspos: int) returns (r: Result<int>)
      modifies this
      ensures match ParseSimple(kind, buf, abspos)
              case Ok((cs, end)) => r == Ok(end) && children == old(children) + cs
              case Err(e) => r == Err(e)
    {
      hide ParseChildren;
      var q :- ParseTag(buf, abspos, Some(TAG_SECTION));
      var endpos :- GetWord(buf, q);
      var parsed :- DeserializeChildren(kind, map[], buf, q + 4, endpos);
      children := children + parsed.0;
      return Ok(parsed.1);
    }
  }

  /** The header section: its children are also appended to a property block. */
  class HeaderSection {
    const container: SimpleContainer
    const properties: PropertyBlock

    constructor ()
      ensures fresh(container) && fresh(properties)
      ensures properties.Valid() && properties.propList == [] && container.children == []
    {
      container := new SimpleContainer();
      properties := new PropertyBlock();
    }

    method Deserialize(buf: Bytes, abspos: int) returns (r: Result<int>)
      requires properties.Valid() && properties.propList == [] && container.children == []
      modifies container, properties
      ensures properties.Valid()
      ensures match ParseHeader(buf, abspos)
              case Ok((props, end)) => r == Ok(end) && properties.propList == props
              case Err(e) => r == Err(e)
    {
      hide ParseSimple;
      r := container.Deserialize(HeaderKind, buf, abspos);
      if r.Err? { return; }
      var children := container.children;
      assert [] + ParseSimple(HeaderKind, buf, abspos).value.0 == children;
      HeaderChildrenAreProperties(buf, abspos);
      var i := 0;
      while i < |children|
        invariant 0 <= i <= |children|
        invariant properties.Valid() && properties.propList == ChildProperties(children[..i])
      {
        assert ChildProperties(children[..i + 1]) == ChildProperties(children[..i]) + [children[i].prop];
        properties.AppendProp(children[i].prop);
        i := i + 1;
      }
      assert children[..i] == children;
    }
  }

  function ChildProperties(children: Children): seq<Property>
    requires forall c :: c in children ==> c.PropertyChunk?
  {
    seq(|children|, i requires 0 <= i < |children| => children[i].prop)
  }

  function ParseHeader(buf: Bytes, abspos: int): Parsed<seq<Property>> {
    var (children, end) :- ParseSimple(HeaderKind, buf, abspos);
    HeaderChildrenAreProperties(buf, abspos);
    Ok((ChildProperties(children), end))
  }

  lemma HeaderChildrenAreProperties(buf: Bytes, abspos: int)
    requires ParseSimple(HeaderKind, buf, abspos).Ok?
    ensures forall c :: c in ParseSimple(HeaderKind, buf, abspos).value.0 ==> c.PropertyChunk?
  {
    hide ParseChildren;
    ChildrenKind(HeaderKind, map[], buf, abspos + 8, GetWord(buf, abspos + 4).value);
  }

  /** The chunk classes a section of some kind produces. */
  predicate OfKind(kind: Kind, c: Chunk<Value>) {
    match kind
    case HeaderKind => c.PropertyChunk?
    case TypeKind => c.TypeChunk?
    case SweepKind => c.RefChunk?
    case TraceKind => c.RefChunk? || c.GroupChunk?
    case ValueKind => c.ValueChunk?
  }

  lemma ChildKind(kind: Kind, types: TypeTable, buf: Bytes, p: int)
    requires ParseChild(kind, types, buf, p).Ok? && ParseChild(kind, types, buf, p).value.0.Some?
    ensures OfKind(kind, ParseChild(kind, types, buf, p).value.0.value)
  {
    hide ParseProperty, ParseTypeDef, ParseRef, ParseGroup, GetInt, ParseValueHead, DecodeData, ParseProperties;
  }

  lemma {:induction false} ChildrenKind(kind: Kind, types: TypeTable, buf: Bytes, p: int, bound: int)
    requires ParseChildren(kind, types, buf, p, bound).Ok?
    ensures forall c :: c in ParseChildren(kind, types, buf, p, bound).value.0 ==> OfKind(kind, c)
    decreases |buf| - p
  {
    hide ParseChild, OfKind;
    if p < bound {
      var (child, q) := ParseChild(kind, types, buf, p).value;
      if child.Some? {
        ChildKind(kind, types, buf, p);
        ChildrenKind(kind, types, buf, q, bound);
      }
    }
  }

  /** `IndexedContainer`: children with an identifier index and a name index. */
  class IndexedContainer {
    var children: Children
    var idMap: map<int, Chunk<Value>>
    var nameMap: map<Bytes, int>

    ghost predicate Valid()
      reads this
    {
      idMap == IdMap(children) && nameMap == IndexMap(Names(children))
    }

    constructor ()
      ensures Valid() && children == []
    {
      children, idMap, nameMap := [], map[], map[];
      new;
      assert Names([]) == [] && Ids([]) == [];
    }

    method Deserialize(kind: Kind, types: TypeTable, buf: Bytes, abspos: int) returns (r: Result<int>)
      requires Valid() && children == []
      modifies this
      ensures match ParseIndexed(kind, types, buf, abspos)
              case Ok((cs, endpos)) => r == Ok(endpos - abspos) && children == cs && Valid()
              case Err(e) => r == Err(e)
    {
      hide ParseIndexedHead, ParseChildren, ParseIndex, IdMap, IndexMap, Names;
      var head :- ParseIndexedHead(kind, buf, abspos);
      var (endpos, subendpos) := head;
      var parsed :- DeserializeChildren(kind, types, buf, abspos + 16, subendpos);
      children := parsed.0;
      var afterIndex :- ParseIndex(buf, parsed.1);
      var i := 0;
      assert children[..0] == [];
      while i < |children|
        invariant 0 <= i <= |children| && children == parsed.0
        invariant idMap == IdMap(children[..i]) && nameMap == IndexMap(Names(children[..i]))
      {
        var child := children[i];
        IdMapAppend(children[..i], child);
        NameMapAppend(children[..i], child);
        assert children[..i + 1] == children[..i] + [child];
        idMap, nameMap, i := idMap[child.Id() := child], nameMap[child.Name() := i], i + 1;
      }
      assert children[..i] == children;
      return Ok(endpos - abspos);
    }

    /** `get_child(int)`; an unknown identifier dereferences the end of the index. */
    function GetChildById(id: int): (r: Result<Chunk<Value>>)
      requires Valid()
      reads this
      ensures match LastIndexOf(Ids(children), id)
              case Some(i) => r == Ok(children[i])
              case None => r == Err(Undefined)
    {
      LastMapLookup(Ids(children), children, id);
      if id in idMap then Ok(idMap[id]) else Err(Undefined)
    }

    /** `get_child_index`: -1 for an unknown name. */
    function GetChildIndex(name: Bytes): (i: int)
      requires Valid()
      reads this
      ensures match LastIndexOf(Names(children), name)
              case Some(k) => i == k
              case None => i == -1
    {
      IndexMapLookup(Names(children), name);
      if name in nameMap then nameMap[name] else -1
    }

    function GetChildByName(name: Bytes): (r: Result<Chunk<Value>>)
      requires Valid()
      reads this
      ensures r == ChildNamed(children, name)
    {
      IndexMapLookup(Names(children), name);
      if name in nameMap then Ok(children[nameMap[name]]) else Err(NotFound)
    }
  }

  /** The child the name index leads to: the last one with that name. */
  function ChildNamed(children: Children, name: Bytes): Result<Chunk<Value>> {
    match LastIndexOf(Names(children), name)
    case Some(i) => Ok(children[i])
    case None => Err(NotFound)
  }

  /** `Container::get_child(string)`: the first child with the name; without one the source returns nothing. */
  method LinearGetChild(children: Children, name: Bytes) returns (r: Result<Chunk<Value>>)
    ensures match FirstIndexOf(Names(children), name)
            case Some(i) => r == Ok(children[i])
            case None => r == Err(Undefined)
  {
    for i := 0 to |children|
      invariant forall j :: 0 <= j < i ==> Names(children)[j] != name
    {
      if children[i].Name() == name {
        assert Names(children)[i] == name;
        return Ok(children[i]);
      }
    }
    return Err(Undefined);
  }

  /** `Container::get_names`. */
  method ListNames(children: Children) returns (names: seq<Bytes>)
    ensures names == Names(children)
  {
    names := [];
    for i := 0 to |children|
      invariant names == Names(children[..i])
    {
      names := names + [children[i].Name()];
    }
    assert children[..|children|] == children;
  }

  /** `Container::get_child(int)`. */
  method LinearGetChildById(children: Children, id: int) returns (r: Result<Chunk<Value>>)
    ensures match FirstIndexOf(Ids(children), id)
            case Some(i) => r == Ok(children[i])
            case None => r == Err(Undefined)
  {
    for i := 0 to |children|
      invariant forall j :: 0 <= j < i ==> Ids(children)[j] != id
    {
      if children[i].Id() == id {
        assert Ids(children)[i] == id;
        return Ok(children[i]);
      }
    }
    return Err(Undefined);
  }

  /** The name index against the list: a name leads to the last child that carries it, which is the child the
      linear search finds exactly when no other child carries the name. */
  lemma {:induction false} NameIndexAgrees(children: Children, name: Bytes)
    ensures ChildNamed(children, name).Ok? <==> exists i :: 0 <= i < |children| && children[i].Name() == name
    ensures forall i :: 0 <= i < |children| && children[i].Name() == name
              && (forall j :: i < j < |children| ==> children[j].Name() != name)
              ==> ChildNamed(children, name) == Ok(children[i])
    ensures name in Names(children) ==>
              (FirstIndexOf(Names(children), name) == LastIndexOf(Names(children), name) <==>
               Once(Names(children), name))
  {
    var names := Names(children);
    assert forall i :: 0 <= i < |children| ==> names[i] == children[i].Name();
    hide FirstIndexOf, LastIndexOf, Once, Names;
    forall i | 0 <= i < |children| && children[i].Name() == name && forall j :: i < j < |children| ==>
        children[j].Name() != name
      ensures LastIndexOf(names, name) == Some(i)
    {
      LastOccurrence(names, name, i);
    }
    if name in names {
      FirstIsLast(names, name);
    }
  }

  /** The identifier index against the list. */
  lemma {:induction false} IdIndexAgrees(children: Children, id: int)
    ensures id in IdMap(children) <==> exists i :: 0 <= i < |children| && children[i].Id() == id
    ensures forall i :: 0 <= i < |children| && children[i].Id() == id
              && (forall j :: i < j < |children| ==> children[j].Id() != id)
              ==> id in IdMap(children) && IdMap(children)[id] == children[i]
    ensures id in Ids(children) ==>
              (FirstIndexOf(Ids(children), id) == LastIndexOf(Ids(children), id) <==> Once(Ids(children), id))
  {
    hide IdMap, FirstIndexOf, LastIndexOf, Once;
    IdKnown(children, id);
    forall i | 0 <= i < |children| && children[i].Id() == id && forall j :: i < j < |children| ==>
        children[j].Id() != id
      ensures id in IdMap(children) && IdMap(children)[id] == children[i]
    {
      LastOfId(children, id, i);
    }
    if id in Ids(children) {
      FirstIsLast(Ids(children), id);
    }
  }

  lemma IdKnown(children: Children, id: int)
    ensures id in IdMap(children) <==> exists i :: 0 <= i < |children| && children[i].Id() == id
  {
    LastMapLookup(Ids(children), children, id);
    hide LastMap, LastIndexOf;
    assert forall i :: 0 <= i < |children| ==> Ids(children)[i] == children[i].Id();
  }

  lemma LastOfId(children: Children, id: int, i: nat)
    requires i < |children| && children[i].Id() == id && forall j :: i < j < |children| ==> children[j].Id() != id
    ensures id in IdMap(children) && IdMap(children)[id] == children[i]
  {
    LastOccurrence(Ids(children), id, i);
    LastMapLookup(Ids(children), children, id);
    hide LastMap, LastIndexOf;
    assert Ids(children)[i] == id;
  }

  /** Groups and unswept values all carry the identifier -1: the index keeps only the last chunk that does. */
  lemma GroupsShareAnId(children: Children, i: nat)
    requires i < |children| && (children[i].GroupChunk? || children[i].ValueChunk?)
    ensures -1 in IdMap(children) && Ids(children)[i] == -1
    ensures i + 1 < |children| && (children[|children| - 1].GroupChunk? || children[|children| - 1].ValueChunk?) ==>
              IdMap(children)[-1] == children[|children| - 1] && !Once(Ids(children), -1)
  {
    var ids := Ids(children);
    LastMapLookup(ids, children, -1);
    hide LastMap;
    assert ids[i] == -1;
    assert ids[|children| - 1] == children[|children| - 1].Id();
  }

  // ---------------------------------------------------------------- encoding

  function EncChildren(children: seq<Chunk<Datum>>, skipped: Skipped): Bytes {
    if children == [] then [] else EncChunk(children[0], FirstOf(skipped)) + EncChildren(children[1..], RestOf(skipped))
  }

  function EndTag(kind: Kind): int {
    if kind == HeaderKind then TAG_HEADER_END else TAG_SWEEP_END
  }

  /** A section as it is written at position `abspos`: closed by an end marker, or by its end position alone. */
  function EncSimple(kind: Kind, abspos: nat, children: seq<Chunk<Datum>>, marked: bool, skipped: Skipped): Bytes {
    var body, marker := EncChildren(children, skipped), Marker(kind, marked);
    EncWord(TAG_SECTION) + (EncWord(abspos + 8 + |body| + |marker|) + (body + marker))
  }

  function Marker(kind: Kind, marked: bool): Bytes {
    if marked then EncWord(EndTag(kind)) else []
  }

  /** An indexed section with arbitrary index entries. */
  function EncIndexed(abspos: nat, children: seq<Chunk<Datum>>, skipped: Skipped, index: Bytes): Bytes {
    var body := EncChildren(children, skipped);
    var subend := abspos + 16 + |body|;
    EncWord(TAG_SECTION) + (EncWord(subend + 8 + |index|) + (EncWord(TAG_SUBSECTION) + (EncWord(subend)
      + (body + (EncWord(TAG_INDEX) + (EncWord(|index|) + index))))))
  }

  ghost predicate EncodableChildren(kind: Kind, types: TypeTable, children: seq<Chunk<Datum>>) {
    forall i :: 0 <= i < |children| ==> EncodableChunk(kind, types, children[i])
  }

  function Denoted(types: TypeTable, children: seq<Chunk<Datum>>): Children
  {
    if children == [] then [] else [Denotes(types, children[0])] + Denoted(types, children[1..])
  }

  lemma EncodableKind(kind: Kind, types: TypeTable, c: Chunk<Datum>)
    requires EncodableChunk(kind, types, c)
    ensures c.PropertyChunk? <==> kind == HeaderKind
  {
  }

  lemma TagEndsBlock(buf: Bytes, p: int, tag: int, tail: Bytes)
    requires 0 <= tag < TAG_STRING_PROPERTY && At(buf, p, EncWord(tag) + tail)
    ensures EndsProperties(buf, p)
  {
    hide At, GetInt, EncWord;
    AtSplit(buf, p, EncWord(tag), tail);
    TagAt(buf, p, tag);
  }

  lemma ChunkStart(buf: Bytes, p: int, c: Chunk<Datum>, skipped: Skipped)
    requires !c.PropertyChunk? && At(buf, p, EncChunk(c, skipped))
    ensures EndsProperties(buf, p)
  {
    hide At, GetInt, EncWord, EncInt, EncString, EncProperties, EncTypeDef, EncMembers, EncDatum;
    match c
    case TypeChunk(def) => TypeDefStart(buf, p, def, skipped);
    case RefChunk(ref) => RefStart(buf, p, ref, skipped);
    case GroupChunk(g) =>
      TagEndsBlock(buf, p, TAG_GROUP,
                   EncInt(g.id) + (EncString(g.name, FirstOf(skipped))
                     + (EncInt(MemberCount(g, WordOf(FirstOf(RestOf(skipped)))))
                        + EncMembers(g.members, RestOf(RestOf(skipped))))));
    case ValueChunk(id, name, typeId, value, props) =>
      TagEndsBlock(buf, p, TAG_VALUE,
                   EncInt(id) + (EncString(name, FirstOf(skipped))
                     + (EncInt(typeId) + (EncDatum(value) + EncProperties(props, RestOf(skipped))))));
  }

  lemma {:induction false} ChildrenStart(buf: Bytes, p: int, children: seq<Chunk<Datum>>, skipped: Skipped)
    requires At(buf, p, EncChildren(children, skipped))
    requires EndsProperties(buf, p + |EncChildren(children, skipped)|)
    requires children == [] || !children[0].PropertyChunk?
    ensures EndsProperties(buf, p)
  {
    hide At, GetInt, EncChunk;
    if children != [] {
      AtSplit(buf, p, EncChunk(children[0], FirstOf(skipped)), EncChildren(children[1..], RestOf(skipped)));
      ChunkStart(buf, p, children[0], FirstOf(skipped));
    }
  }

  lemma {:induction false} FirstChild(kind: Kind, types: TypeTable, buf: Bytes, p: int, children: seq<Chunk<Datum>>,
                                      skipped: Skipped)
    requires children != [] && EncodableChildren(kind, types, children) && At(buf, p, EncChildren(children, skipped))
    requires kind == HeaderKind || EndsProperties(buf, p + |EncChildren(children, skipped)|)
    ensures ParseChild(kind, types, buf, p)
         == Ok((Some(Denotes(types, children[0])), p + |EncChunk(children[0], FirstOf(skipped))|))
    ensures At(buf, p + |EncChunk(children[0], FirstOf(skipped))|, EncChildren(children[1..], RestOf(skipped)))
  {
    hide At, GetInt, ParseChild, EncChunk, Denotes, EncodableChunk, EndsProperties;
    var first, rest := EncChunk(children[0], FirstOf(skipped)), EncChildren(children[1..], RestOf(skipped));
    AtSplit(buf, p, first, rest);
    EncodableKind(kind, types, children[0]);
    if kind != HeaderKind {
      if |children| > 1 {
        EncodableKind(kind, types, children[1]);
      }
      ChildrenStart(buf, p + |first|, children[1..], RestOf(skipped));
    }
    ChunkRoundTrip(kind, types, buf, p, children[0], FirstOf(skipped));
  }

  /** Round trip of a list of children, whatever bounds it. */
  lemma {:induction false} ChildrenRoundTrip(kind: Kind, types: TypeTable, buf: Bytes, p: int, bound: int,
                                             children: seq<Chunk<Datum>>, skipped: Skipped)
    requires EncodableChildren(kind, types, children) && At(buf, p, EncChildren(children, skipped))
    requires kind == HeaderKind || EndsProperties(buf, p + |EncChildren(children, skipped)|)
    requires p + |EncChildren(children, skipped)| <= bound
    ensures ParseChildren(kind, types, buf, p, bound)
         == Prepend(Denoted(types, children),
                    ParseChildren(kind, types, buf, p + |EncChildren(children, skipped)|, bound))
    decreases |children|
  {
    hide At, ParseChild, EncChunk, Denotes, EncodableChunk, EndsProperties, Prepend;
    if children == [] {
      PrependNothing(ParseChildren(kind, types, buf, p, bound));
    } else {
      var q, rest := p + |EncChunk(children[0], FirstOf(skipped))|, EncChildren(children[1..], RestOf(skipped));
      FirstChild(kind, types, buf, p, children, skipped);
      ChildrenRoundTrip(kind, types, buf, q, bound, children[1..], RestOf(skipped));
      PrependPrepend([Denotes(types, children[0])], Denoted(types, children[1..]),
                     ParseChildren(kind, types, buf, q + |rest|, bound));
    }
  }

  /** Round trip of a section without an index. Without an end marker, the bytes behind a section of sweeps must not
      continue the properties of its last one; a header's properties are read one by one up to its end. */
  lemma {:induction false} SimpleRoundTrip(kind: Kind, buf: Bytes, abspos: nat, children: seq<Chunk<Datum>>,
                                           marked: bool, skipped: Skipped)
    requires kind == HeaderKind || kind == SweepKind
    requires EncodableChildren(kind, map[], children) && |buf| < WORD
    requires At(buf, abspos, EncSimple(kind, abspos, children, marked, skipped))
    requires marked || kind == HeaderKind
             || EndsProperties(buf, abspos + |EncSimple(kind, abspos, children, marked, skipped)|)
    ensures ParseSimple(kind, buf, abspos)
         == Ok((Denoted(map[], children), abspos + |EncSimple(kind, abspos, children, marked, skipped)|))
  {
    hide At, GetInt, GetWord, EncWord, EncChildren, ParseChildren, EncodableChunk, Denoted, ParseChild, EndsProperties;
    var body, marker := EncChildren(children, skipped), Marker(kind, marked);
    var endpos := abspos + 8 + |body| + |marker|;
    AtInside(buf, abspos, EncSimple(kind, abspos, children, marked, skipped));
    AtSplit(buf, abspos, EncWord(TAG_SECTION), EncWord(endpos) + (body + marker));
    AtSplit(buf, abspos + 4, EncWord(endpos), body + marker);
    AtSplit(buf, abspos + 8, body, marker);
    TagAt(buf, abspos, TAG_SECTION);
    WordAt(buf, abspos + 4, endpos);
    var q := abspos + 8 + |body|;
    if marked {
      MarkerAt(kind, buf, q, endpos);
    } else {
      BoundReached(kind, map[], buf, q);
    }
    ChildrenRoundTrip(kind, map[], buf, abspos + 8, endpos, children, skipped);
    assert Denoted(map[], children) + [] == Denoted(map[], children);
  }

  lemma {:induction false} MarkerAt(kind: Kind, buf: Bytes, q: int, bound: int)
    requires kind == HeaderKind || kind == SweepKind
    requires q < bound && At(buf, q, Marker(kind, true))
    ensures EndsProperties(buf, q) && ParseChildren(kind, map[], buf, q, bound) == Ok(([], q + 4))
  {
    hide At, GetInt, EncWord, ParseChildren;
    TagAt(buf, q, EndTag(kind));
    EndMarker(kind, buf, q, bound);
  }

  lemma {:induction false} EndMarker(kind: Kind, buf: Bytes, q: int, bound: int)
    requires kind == HeaderKind || kind == SweepKind
    requires q < bound && GetInt(buf, q) == Ok(EndTag(kind))
    ensures ParseChildren(kind, map[], buf, q, bound) == Ok(([], q + 4))
  {
    hide GetInt, ParseProperty, ParseRef;
  }

  /** The parts of a written indexed section. */
  lemma {:induction false} IndexedPartsAt(kind: Kind, buf: Bytes, abspos: nat, children: seq<Chunk<Datum>>,
                                          skipped: Skipped, index: Bytes)
    requires At(buf, abspos, EncIndexed(abspos, children, skipped, index)) && |buf| < WORD
    ensures var body := EncChildren(children, skipped);
            var subend := abspos + 16 + |body|;
            && ParseIndexedHead(kind, buf, abspos) == Ok((subend + 8 + |index|, subend))
            && At(buf, abspos + 16, body) && EndsProperties(buf, subend)
            && ParseIndex(buf, subend) == Ok(subend + 8 + |index|)
  {
    hide At, GetInt, GetWord, EncWord, EncChildren, EndsProperties;
    var body := EncChildren(children, skipped);
    var subend := abspos + 16 + |body|;
    var endpos := subend + 8 + |index|;
    var tail := EncWord(TAG_INDEX) + (EncWord(|index|) + index);
    AtInside(buf, abspos, EncIndexed(abspos, children, skipped, index));
    AtSplit(buf, abspos, EncWord(TAG_SECTION),
            EncWord(endpos) + (EncWord(TAG_SUBSECTION) + (EncWord(subend) + (body + tail))));
    AtSplit(buf, abspos + 4, EncWord(endpos), EncWord(TAG_SUBSECTION) + (EncWord(subend) + (body + tail)));
    AtSplit(buf, abspos + 8, EncWord(TAG_SUBSECTION), EncWord(subend) + (body + tail));
    AtSplit(buf, abspos + 12, EncWord(subend), body + tail);
    AtSplit(buf, abspos + 16, body, tail);
    IndexedHeadAt(kind, buf, abspos, endpos, subend);
    IndexAt(buf, subend, index);
  }

  lemma {:induction false} IndexedRoundTrip(kind: Kind, types: TypeTable, buf: Bytes, abspos: nat,
                                            children: seq<Chunk<Datum>>, skipped: Skipped, index: Bytes)
    requires kind == TypeKind || kind == TraceKind || kind == ValueKind
    requires EncodableChildren(kind, types, children)
    requires At(buf, abspos, EncIndexed(abspos, children, skipped, index)) && |buf| < WORD
    ensures ParseIndexed(kind, types, buf, abspos)
         == Ok((Denoted(types, children), abspos + |EncIndexed(abspos, children, skipped, index)|))
  {
    hide At, EncChildren, ParseChildren, EncodableChunk, Denoted, EndsProperties, ParseIndex, ParseIndexedHead;
    IndexedPartsAt(kind, buf, abspos, children, skipped, index);
    var subend := abspos + 16 + |EncChildren(children, skipped)|;
    ChildrenRoundTrip(kind, types, buf, abspos + 16, subend, children, skipped);
    BoundReached(kind, types, buf, subend);
    assert Denoted(types, children) + [] == Denoted(types, children);
  }

  lemma {:induction false} BoundReached(kind: Kind, types: TypeTable, buf: Bytes, bound: int)
    ensures ParseChildren(kind, types, buf, bound, bound) == Ok(([], bound))
  {
  }

  lemma IndexedHeadAt(kind: Kind, buf: Bytes, abspos: int, endpos: int, subend: int)
    requires IsWord(endpos) && IsWord(subend)
    requires At(buf, abspos, EncWord(TAG_SECTION)) && At(buf, abspos + 4, EncWord(endpos))
    requires At(buf, abspos + 8, EncWord(TAG_SUBSECTION)) && At(buf, abspos + 12, EncWord(subend))
    ensures ParseIndexedHead(kind, buf, abspos) == Ok((endpos, subend))
  {
    hide At, GetWord, EncWord, ParseTag;
    TagAt(buf, abspos, TAG_SECTION);
    AnyTagAt(buf, abspos, TAG_SECTION);
    WordAt(buf, abspos + 4, endpos);
    WordAt(buf, abspos + 8, TAG_SUBSECTION);
    WordAt(buf, abspos + 12, subend);
  }

  lemma IndexAt(buf: Bytes, p: int, index: Bytes)
    requires At(buf, p, EncWord(TAG_INDEX) + (EncWord(|index|) + index)) && |buf| < WORD
    ensures ParseIndex(buf, p) == Ok(p + 8 + |index|) && EndsProperties(buf, p)
  {
    hide At, GetWord, GetInt, EncWord, ParseTag;
    AtInside(buf, p, EncWord(TAG_INDEX) + (EncWord(|index|) + index));
    AtSplit(buf, p, EncWord(TAG_INDEX), EncWord(|index|) + index);
    AtSplit(buf, p + 4, EncWord(|index|), index);
    TagAt(buf, p, TAG_INDEX);
    WordAt(buf, p + 4, |index|);
  }
}
