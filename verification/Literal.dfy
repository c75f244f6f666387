/** The encoders step by step, for files that are written out byte by byte. */
module Literal {
  import opened Base
  import opened Words
  import opened Properties
  import opened Types
  import opened Values
  import opened Chunks
  import opened Containers
  import opened Sections
  import opened File
  import opened FileRoundTrip

  lemma {:induction false} MoreChildren(c: Chunk<Datum>, rest: seq<Chunk<Datum>>)
    ensures EncChildren([c] + rest, Nothing) == EncChunk(c, Nothing) + EncChildren(rest, Nothing)
    ensures rest == [] ==> EncChildren([c] + rest, Nothing) == EncChunk(c, Nothing)
  {
    hide EncChunk;
    assert ([c] + rest)[1..] == rest;
  }

  lemma {:induction false} MoreMembers(ref: TypeRef, rest: seq<TypeRef>)
    ensures EncMembers([ref] + rest, Nothing) == EncRef(ref, Nothing) + EncMembers(rest, Nothing)
    ensures rest == [] ==> EncMembers([ref] + rest, Nothing) == EncRef(ref, Nothing)
  {
    hide EncRef;
    assert ([ref] + rest)[1..] == rest;
  }

  lemma OneProperty(prop: Property)
    ensures EncProperties([prop], Nothing) == EncProperty(prop, Nothing)
  {
    hide EncProperty;
    assert [prop][1..] == [];
    assert EncProperties([prop], Nothing) == EncProperty(prop, Nothing) + EncProperties([prop][1..], Nothing);
  }

  lemma {:induction false} MoreItems(d: Datum, rest: seq<Datum>)
    ensures EncItems([d] + rest) == EncDatum(d) + EncItems(rest)
    ensures rest == [] ==> EncItems([d] + rest) == EncDatum(d)
  {
    hide EncDatum;
    assert ([d] + rest)[1..] == rest;
  }

  lemma {:induction false} ManyProperties(props: seq<Property>, chunks: seq<Chunk<Datum>>)
    requires |chunks| == |props| && forall k :: 0 <= k < |props| ==> chunks[k] == PropertyChunk(props[k])
    ensures PropertyChunks<Datum>(props) == chunks
  {
    PropertyChunksDenoted(map[], props);
  }

  lemma TwoDefinitions(a: TypeDef, b: TypeDef)
    ensures TypeChunks<Datum>([a, b]) == [TypeChunk(a), TypeChunk(b)]
    ensures TypeChunks<Value>([a, b]) == [TypeChunk(a), TypeChunk(b)]
  {
    DefinitionList<Datum>(a, b);
    DefinitionList<Value>(a, b);
  }

  lemma DefinitionList<V>(a: TypeDef, b: TypeDef)
    ensures TypeChunks<V>([a, b]) == [TypeChunk(a), TypeChunk(b)]
  {
    assert [a, b][1..] == [b] && [b][1..] == [];
    assert TypeChunks<V>([b]) == [TypeChunk(b)] + TypeChunks([b][1..]);
  }

  lemma ThreeDefinitions(a: TypeDef, b: TypeDef, c: TypeDef)
    ensures TypeChunks<Datum>([a, b, c]) == [TypeChunk(a), TypeChunk(b), TypeChunk(c)]
    ensures TypeChunks<Value>([a, b, c]) == [TypeChunk(a), TypeChunk(b), TypeChunk(c)]
  {
    TwoDefinitions(b, c);
    assert [a, b, c][1..] == [b, c];
    assert TypeChunks<Datum>([a, b, c]) == [TypeChunk(a)] + TypeChunks([a, b, c][1..]);
    assert TypeChunks<Value>([a, b, c]) == [TypeChunk(a)] + TypeChunks([a, b, c][1..]);
  }

  lemma TableOfThree(a: TypeDef, b: TypeDef, c: TypeDef)
    requires a.id != b.id && a.id != c.id && b.id != c.id
    ensures TypeTableOf(Some([TypeChunk(a), TypeChunk(b), TypeChunk(c)])) == map[a.id := a, b.id := b, c.id := c]
  {
    var none, one: Children := [], [TypeChunk(a)];
    var two, three: Children := [TypeChunk(a), TypeChunk(b)], [TypeChunk(a), TypeChunk(b), TypeChunk(c)];
    IdMapAppend(none, TypeChunk(a));
    IdMapAppend(one, TypeChunk(b));
    IdMapAppend(two, TypeChunk(c));
    assert none + [TypeChunk(a)] == one && one + [TypeChunk(b)] == two && two + [TypeChunk(c)] == three;
    assert IdMap(none) == map[];
    hide IdMap;
    assert IdMap(three) == map[a.id := TypeChunk(a), b.id := TypeChunk(b), c.id := TypeChunk(c)];
  }

  lemma TableOfTwo(a: TypeDef, b: TypeDef)
    requires a.id != b.id
    ensures TypeTableOf(Some([TypeChunk(a), TypeChunk(b)])) == map[a.id := a, b.id := b]
  {
    var none, one, two: Children := [], [TypeChunk(a)], [TypeChunk(a), TypeChunk(b)];
    IdMapAppend(none, TypeChunk(a));
    IdMapAppend(one, TypeChunk(b));
    assert none + [TypeChunk(a)] == one && one + [TypeChunk(b)] == two;
    assert IdMap(none) == map[];
    hide IdMap;
    assert IdMap(two) == map[a.id := TypeChunk(a), b.id := TypeChunk(b)];
  }

  lemma TwoReferences(a: TypeRef, b: TypeRef)
    ensures RefChunks<Datum>([a, b]) == [RefChunk(a), RefChunk(b)]
    ensures RefChunks<Value>([a, b]) == [RefChunk(a), RefChunk(b)]
  {
    ReferenceList<Datum>(a, b);
    ReferenceList<Value>(a, b);
  }

  lemma ReferenceList<V>(a: TypeRef, b: TypeRef)
    ensures RefChunks<V>([a, b]) == [RefChunk(a), RefChunk(b)]
  {
    assert [a, b][1..] == [b] && [b][1..] == [];
    assert RefChunks<V>([b]) == [RefChunk(b)] + RefChunks([b][1..]);
  }

  // ---------------------------------------------------------------- sections and files

  lemma {:induction false} SimpleBytes(kind: Kind, abspos: nat, children: seq<Chunk<Datum>>, marked: bool, body: Bytes,
                                       head: Bytes)
    requires EncChildren(children, Nothing) == body
    requires head == EncWord(TAG_SECTION) + EncWord(abspos + 8 + |body| + if marked then 4 else 0)
    ensures EncSimple(kind, abspos, children, marked, Nothing) == head + (body + Marker(kind, marked))
  {
    hide EncWord, EncChildren;
    var end := EncWord(abspos + 8 + |body| + if marked then 4 else 0);
    Associate(EncWord(TAG_SECTION), end, body + Marker(kind, marked));
  }

  lemma {:induction false} IndexedBytes(abspos: nat, children: seq<Chunk<Datum>>, index: Bytes, body: Bytes,
                                        head: Bytes, tail: Bytes)
    requires EncChildren(children, Nothing) == body
    requires head == EncWord(TAG_SECTION) + EncWord(abspos + 24 + |body| + |index|) + EncWord(TAG_SUBSECTION)
                     + EncWord(abspos + 16 + |body|)
    requires tail == EncWord(TAG_INDEX) + EncWord(|index|) + index
    ensures EncIndexed(abspos, children, Nothing, index) == head + (body + tail)
  {
    hide EncWord, EncChildren;
    var a, b, c, d := EncWord(TAG_SECTION), EncWord(abspos + 24 + |body| + |index|), EncWord(TAG_SUBSECTION),
                      EncWord(abspos + 16 + |body|);
    Associate(EncWord(TAG_INDEX), EncWord(|index|), index);
    Associate(c, d, body + tail);
    Associate(a, b, c + d + (body + tail));
    Associate(a + b, c + d, body + tail);
    Associate(a + b, c, d);
  }

  lemma Associate(a: Bytes, b: Bytes, c: Bytes)
    ensures a + (b + c) == a + b + c
  {
  }

  lemma {:induction false} MoreSections(s: Source, rest: seq<Source>, base: nat, bytes: Bytes)
    requires EncSection(s, base, Nothing) == bytes
    ensures Assemble([s] + rest, base, Nothing)
         == [SectionBytes(Number(s), bytes)] + Assemble(rest, base + |bytes|, Nothing)
  {
    hide EncSection, Assemble, Number;
    FirstAssembled([s] + rest, base, Nothing);
    var sections := Assemble([s] + rest, base, Nothing);
    assert ([s] + rest)[1..] == rest;
    assert sections == [sections[0]] + sections[1..];
  }

  lemma {:induction false} MoreBody(s: SectionBytes, rest: seq<SectionBytes>)
    ensures Body([s] + rest) == s.bytes + Body(rest)
  {
    assert ([s] + rest)[1..] == rest;
  }

  /** The section table of sections that start at `base`. */
  function TableFrom(s: seq<SectionBytes>, base: int): Bytes {
    EncEntries(EntriesOf(s, base))
  }

  lemma {:induction false} MoreTable(s: SectionBytes, rest: seq<SectionBytes>, base: int)
    ensures TableFrom([s] + rest, base) == EncInt(s.number) + EncWord(base) + TableFrom(rest, base + |s.bytes|)
  {
    hide EncInt, EncWord;
    assert ([s] + rest)[1..] == rest;
    var entries := EntriesOf(rest, base + |s.bytes|);
    assert EntriesOf([s] + rest, base) == [Entry(s.number, base)] + entries;
    assert ([Entry(s.number, base)] + entries)[1..] == entries;
  }

  /** A list of five as it is taken apart from the front. */
  lemma FiveApart<T>(xs: seq<T>)
    requires |xs| == 5
    ensures xs == [xs[0]] + ([xs[1]] + ([xs[2]] + ([xs[3]] + ([xs[4]] + []))))
  {
  }

  /** Five sections and where they stand. */
  lemma {:induction false} FiveSections(sources: seq<Source>, bytes: seq<Bytes>, at: seq<nat>)
    requires |sources| == |bytes| == |at| == 5 && at[0] == 4
    requires forall k :: 0 <= k < 5 ==> EncSection(sources[k], at[k], Nothing) == bytes[k]
    requires forall k :: 0 <= k < 4 ==> at[k + 1] == at[k] + |bytes[k]|
    ensures WrittenSections(sources, Nothing)
         == [SectionBytes(Number(sources[0]), bytes[0])] + ([SectionBytes(Number(sources[1]), bytes[1])]
            + ([SectionBytes(Number(sources[2]), bytes[2])] + ([SectionBytes(Number(sources[3]), bytes[3])]
            + ([SectionBytes(Number(sources[4]), bytes[4])] + []))))
  {
    hide EncSection, Assemble, Number;
    var d := [sources[4]] + [];
    var c := [sources[3]] + d;
    var b := [sources[2]] + c;
    var a := [sources[1]] + b;
    FiveApart(sources);
    MoreSections(sources[0], a, at[0], bytes[0]);
    MoreSections(sources[1], b, at[1], bytes[1]);
    MoreSections(sources[2], c, at[2], bytes[2]);
    MoreSections(sources[3], d, at[3], bytes[3]);
    MoreSections(sources[4], [], at[4], bytes[4]);
    NoSections(at[4] + |bytes[4]|);
  }

  lemma {:induction false} NoSections(base: nat)
    ensures Assemble([], base, Nothing) == [] && Body([]) == [] && TableFrom([], base) == []
  {
  }

  /** The bytes of five sections one behind the other. */
  lemma {:induction false} FiveBodies(s: seq<SectionBytes>)
    requires |s| == 5
    ensures Body(s) == s[0].bytes + (s[1].bytes + (s[2].bytes + (s[3].bytes + (s[4].bytes + []))))
  {
    hide Body;
    var d := [s[4]] + [];
    var c := [s[3]] + d;
    var b := [s[2]] + c;
    var a := [s[1]] + b;
    FiveApart(s);
    MoreBody(s[0], a);
    MoreBody(s[1], b);
    MoreBody(s[2], c);
    MoreBody(s[3], d);
    MoreBody(s[4], []);
    NoSections(0);
  }

  /** The table that leads to five sections, the first of them behind the first word of the file. */
  lemma {:induction false} FiveEntries(s: seq<SectionBytes>, b: int, c: int, d: int, e: int)
    requires |s| == 5 && b == 4 + |s[0].bytes| && c == b + |s[1].bytes| && d == c + |s[2].bytes|
             && e == d + |s[3].bytes|
    ensures EncEntries(EntriesOf(s, 4))
         == EncInt(s[0].number) + EncWord(4) + (EncInt(s[1].number) + EncWord(b) + (EncInt(s[2].number) + EncWord(c)
            + (EncInt(s[3].number) + EncWord(d) + (EncInt(s[4].number) + EncWord(e) + []))))
  {
    hide TableFrom, EncInt, EncWord;
    FiveApart(s);
    MoreTable(s[0], [s[1]] + ([s[2]] + ([s[3]] + ([s[4]] + []))), 4);
    MoreTable(s[1], [s[2]] + ([s[3]] + ([s[4]] + [])), b);
    MoreTable(s[2], [s[3]] + ([s[4]] + []), c);
    MoreTable(s[3], [s[4]] + [], d);
    MoreTable(s[4], [], e);
    NoSections(e + |s[4].bytes|);
    assert EncEntries(EntriesOf(s, 4)) == TableFrom(s, 4) by { TableOf(s); }
  }

  lemma {:induction false} TableOf(s: seq<SectionBytes>)
    ensures EncEntries(EntriesOf(s, 4)) == TableFrom(s, 4)
  {
  }

  /** The same for three sections. */
  lemma {:induction false} ThreeSections(sources: seq<Source>, bytes: seq<Bytes>, b: nat, c: nat)
    requires |sources| == |bytes| == 3 && b == 4 + |bytes[0]| && c == b + |bytes[1]|
    requires EncSection(sources[0], 4, Nothing) == bytes[0] && EncSection(sources[1], b, Nothing) == bytes[1]
    requires EncSection(sources[2], c, Nothing) == bytes[2]
    ensures WrittenSections(sources, Nothing)
         == [SectionBytes(Number(sources[0]), bytes[0])] + ([SectionBytes(Number(sources[1]), bytes[1])]
            + ([SectionBytes(Number(sources[2]), bytes[2])] + []))
  {
    hide EncSection, Assemble, Number;
    ThreeApart(sources);
    MoreSections(sources[0], [sources[1]] + ([sources[2]] + []), 4, bytes[0]);
    MoreSections(sources[1], [sources[2]] + [], b, bytes[1]);
    MoreSections(sources[2], [], c, bytes[2]);
    NoSections(c + |bytes[2]|);
  }

  lemma ThreeApart<T>(xs: seq<T>)
    requires |xs| == 3
    ensures xs == [xs[0]] + ([xs[1]] + ([xs[2]] + []))
  {
  }

  lemma {:induction false} ThreeBodies(s: seq<SectionBytes>)
    requires |s| == 3
    ensures Body(s) == s[0].bytes + (s[1].bytes + (s[2].bytes + []))
  {
    hide Body;
    ThreeApart(s);
    MoreBody(s[0], [s[1]] + ([s[2]] + []));
    MoreBody(s[1], [s[2]] + []);
    MoreBody(s[2], []);
    NoSections(0);
  }

  lemma {:induction false} ThreeEntries(s: seq<SectionBytes>, b: int, c: int)
    requires |s| == 3 && b == 4 + |s[0].bytes| && c == b + |s[1].bytes|
    ensures EncEntries(EntriesOf(s, 4))
         == EncInt(s[0].number) + EncWord(4) + (EncInt(s[1].number) + EncWord(b)
                                                + (EncInt(s[2].number) + EncWord(c) + []))
  {
    hide TableFrom, EncInt, EncWord;
    ThreeApart(s);
    MoreTable(s[0], [s[1]] + ([s[2]] + []), 4);
    MoreTable(s[1], [s[2]] + [], b);
    MoreTable(s[2], [], c);
    NoSections(c + |s[2].bytes|);
    TableOf(s);
  }

  // ---------------------------------------------------------------- strings

  /** Strings are padded with zeros here. */
  lemma StringBytes(s: Bytes)
    ensures EncString(s, Nothing)
         == EncInt(|s|) + s + (if |s| % 4 == 0 then [] else if |s| % 4 == 1 then [0, 0, 0]
                               else if |s| % 4 == 2 then [0, 0] else [0])
    ensures |s| % 4 == 0 ==> EncString(s, Nothing) == EncInt(|s|) + s
  {
    hide EncInt;
    var n := Padding(|s|);
    assert PaddingOf(Nothing, |s|) == seq(n, _ => 0);
    assert n == 0 || n == 1 || n == 2 || n == 3;
  }
}
