/** The section table at the end of a file. */
module Sections {
  import opened Base
  import opened Words
  import opened Keys
  import opened Offsets

  const CLARISSA := Ascii("Clarissa")
  const TRAILER_SIZE := 12

  /** A section's position, and its size once the next entry or the end of the table determines it. */
  datatype Section = Section(offset: int, size: Option<int>)

  /** A table entry: section number and offset, as words. */
  datatype Entry = Entry(number: int, offset: int)

  // ---------------------------------------------------------------- reading the table

  /** The number of entries between the table's offset and the trailer, in unsigned arithmetic. */
  function EntryCount(size: int, tocOffset: int): (n: nat)
  {
    (size - tocOffset - TRAILER_SIZE) % WORD / 8
  }

  function ReadEntries(buf: Bytes, p: int, count: nat): Result<seq<Entry>>
    decreases count
  {
    if count == 0 then Ok([])
    else
      var number :- GetWord(buf, p);
      var offset :- GetWord(buf, p + 4);
      var rest :- ReadEntries(buf, p + 8, count - 1);
      Ok([Entry(Signed(number), offset)] + rest)
  }

  /** A difference of two words stored in a C `int`. */
  function Distance(from: int, to: int): int {
    Signed((to - from) % WORD)
  }

  /** The table after some entries: each entry replaces an earlier one with its number, and closes the
      section of the entry before it. */
  function TableAfter(entries: seq<Entry>): (m: map<int, Section>)
    ensures entries != [] ==> entries[|entries| - 1].number in m
  {
    if entries == [] then map[]
    else
      var front, last := entries[..|entries| - 1], entries[|entries| - 1];
      var m := TableAfter(front);
      var closed :=
        if front == [] then m
        else Close(m, front[|front| - 1].number, Distance(front[|front| - 1].offset, last.offset));
      closed[last.number := Section(last.offset, None)]
  }

  function Close(m: map<int, Section>, number: int, size: int): map<int, Section> {
    if number in m then m[number := m[number].(size := Some(size))] else m
  }

  /** The finished table: the last section extends to the end of the file. A table without entries
      leaves the source with an uninitialised one. */
  function SectionTable(entries: seq<Entry>, size: int): Result<map<int, Section>> {
    if entries == [] then Err(Undefined)
    else
      var last := entries[|entries| - 1];
      Ok(Close(TableAfter(entries), last.number, Distance(last.offset, size)))
  }

  function ReadSectionTable(buf: Bytes): Result<map<int, Section>> {
    var tocOffset :- GetWord(buf, |buf| - 4);
    var count := EntryCount(|buf|, tocOffset);
    var entries :- ReadEntries(buf, |buf| - TRAILER_SIZE - 8 * count, count);
    SectionTable(entries, |buf|)
  }

  /** The loop of `PSFFile::deserialize` over the section table. */
  method DeserializeSections(buf: Bytes) returns (r: Result<map<int, Section>>)
    ensures r == ReadSectionTable(buf)
  {
    hide GetWord, EntryCount, Distance, Join, Signed;
    var tocOffset :- GetWord(buf, |buf| - 4);
    var count := EntryCount(|buf|, tocOffset);
    var toc := |buf| - TRAILER_SIZE - 8 * count;
    var sections: map<int, Section> := map[];
    var lastOffset, lastNumber := 0, -1;
    ghost var done: seq<Entry> := [];
    JoinEnds([], ReadEntries(buf, toc, count));
    for i := 0 to count
      invariant |done| == i && sections == TableAfter(done)
      invariant i > 0 ==> done[i - 1] == Entry(lastNumber, lastOffset)
      invariant ReadEntries(buf, toc, count) == Join(done, ReadEntries(buf, toc + 8 * i, count - i))
    {
      var number := GetWord(buf, toc + 8 * i);
      if number.Err? {
        JoinError(done, number.error);
        return Err(number.error);
      }
      var offset := GetWord(buf, toc + 8 * i + 4).value;
      var entry := Entry(Signed(number.value), offset);
      ReadEntriesStep(buf, toc + 8 * i, count - i);
      JoinStep(done, [entry], ReadEntries(buf, toc + 8 * (i + 1), count - i - 1));
      if i > 0 {
        sections := sections[lastNumber := sections[lastNumber].(size := Some(Distance(lastOffset, entry.offset)))];
      }
      sections := sections[entry.number := Section(entry.offset, None)];
      assert (done + [entry])[..i] == done;
      done := done + [entry];
      lastOffset, lastNumber := entry.offset, entry.number;
    }
    JoinEnds(done, Ok([]));
    if count == 0 { return Err(Undefined); }
    sections := sections[lastNumber := sections[lastNumber].(size := Some(Distance(lastOffset, |buf|)))];
    return Ok(sections);
  }

  lemma ReadEntriesStep(buf: Bytes, p: int, count: nat)
    requires count > 0 && GetWord(buf, p).Ok? && GetWord(buf, p + 4).Ok?
    ensures ReadEntries(buf, p, count)
         == Join([Entry(Signed(GetWord(buf, p).value), GetWord(buf, p + 4).value)], ReadEntries(buf, p + 8, count - 1))
  {
    hide GetWord;
  }

  // ---------------------------------------------------------------- writing a file

  /** A numbered section and its bytes. */
  datatype SectionBytes = SectionBytes(number: int, bytes: Bytes)

  function Body(sections: seq<SectionBytes>): Bytes {
    if sections == [] then [] else sections[0].bytes + Body(sections[1..])
  }

  function EntriesOf(sections: seq<SectionBytes>, base: int): (r: seq<Entry>)
    ensures |r| == |sections| && forall k :: 0 <= k < |r| ==> r[k].number == sections[k].number
  {
    if sections == [] then []
    else [Entry(sections[0].number, base)] + EntriesOf(sections[1..], base + |sections[0].bytes|)
  }

  function EncEntries(entries: seq<Entry>): (s: Bytes)
    ensures |s| == 8 * |entries|
  {
    if entries == [] then []
    else EncInt(entries[0].number) + EncWord(entries[0].offset) + EncEntries(entries[1..])
  }

  /** A signature word that no reader looks at, sections, section table, "Clarissa", and the offset of the table. */
  function EncFile(signature: int, sections: seq<SectionBytes>): Bytes {
    var body := Body(sections);
    EncInt(signature) + (body + (EncEntries(EntriesOf(sections, 4)) + (CLARISSA + EncWord(4 + |body|))))
  }

  /** The check made before a file is read. */
  predicate IsPsf(buf: Bytes) {
    |buf| >= TRAILER_SIZE && buf[|buf| - TRAILER_SIZE..|buf| - 4] == CLARISSA
  }

  predicate EntryInRange(e: Entry) {
    IsInt32(e.number) && IsWord(e.offset)
  }

  ghost predicate EntriesInRange(entries: seq<Entry>) {
    forall k :: 0 <= k < |entries| ==> EntryInRange(entries[k])
  }

  lemma {:induction false} EntriesAt(buf: Bytes, p: int, entries: seq<Entry>)
    requires EntriesInRange(entries) && At(buf, p, EncEntries(entries))
    ensures ReadEntries(buf, p, |entries|) == Ok(entries)
    decreases |entries|
  {
    hide At, GetWord, EncWord, EncInt, EntryInRange;
    if entries != [] {
      var e, rest := entries[0], entries[1..];
      EntryAt(buf, p, e, EncEntries(rest));
      assert EntriesInRange(rest);
      EntriesAt(buf, p + 8, rest);
      assert [e] + rest == entries;
    }
  }

  lemma EntryAt(buf: Bytes, p: int, e: Entry, tail: Bytes)
    requires EntryInRange(e) && At(buf, p, EncInt(e.number) + EncWord(e.offset) + tail)
    ensures GetWord(buf, p).Ok? && GetWord(buf, p + 4).Ok?
    ensures Entry(Signed(GetWord(buf, p).value), GetWord(buf, p + 4).value) == e
    ensures At(buf, p + 8, tail)
  {
    hide At, GetWord, EncWord;
    AtSplit(buf, p, EncInt(e.number) + EncWord(e.offset), tail);
    AtSplit(buf, p, EncInt(e.number), EncWord(e.offset));
    WordAt(buf, p, Unsigned(e.number));
    WordAt(buf, p + 4, e.offset);
  }

  /** A table of distinct numbers maps each to its offset. */
  lemma {:induction false} TableOffsets(entries: seq<Entry>, k: nat)
    requires k < |entries| && Distinct(Numbers(entries))
    ensures entries[k].number in TableAfter(entries)
            && TableAfter(entries)[entries[k].number].offset == entries[k].offset
    decreases |entries|
  {
    hide Distance;
    var n := |entries| - 1;
    var front := entries[..n];
    if k < n {
      FrontDistinct(entries);
      TableOffsets(front, k);
      assert Numbers(entries)[k] == front[k].number && Numbers(entries)[n] == entries[n].number;
    }
  }

  function Numbers(entries: seq<Entry>): seq<int> {
    seq(|entries|, k requires 0 <= k < |entries| => entries[k].number)
  }

  lemma FrontDistinct(entries: seq<Entry>)
    requires entries != [] && Distinct(Numbers(entries))
    ensures Distinct(Numbers(entries[..|entries| - 1]))
  {
    var front := entries[..|entries| - 1];
    assert forall k :: 0 <= k < |front| ==> Numbers(front)[k] == Numbers(entries)[k];
  }

  /** Of the entries with the same number the last one is kept. */
  lemma {:induction false} LastEntryKept(entries: seq<Entry>, k: nat)
    requires k < |entries| && forall j :: k < j < |entries| ==> entries[j].number != entries[k].number
    ensures entries[k].number in TableAfter(entries)
            && TableAfter(entries)[entries[k].number].offset == entries[k].offset
    decreases |entries|
  {
    hide Distance;
    if k < |entries| - 1 {
      LastEntryKept(entries[..|entries| - 1], k);
    }
  }

  /** Whatever was read, entry `k` comes from the `k`-th pair of words. */
  lemma {:induction false} EntryRead(buf: Bytes, p: int, count: nat, k: nat)
    requires ReadEntries(buf, p, count).Ok? && k < count
    ensures |ReadEntries(buf, p, count).value| == count
    ensures GetInt(buf, p + 8 * k).Ok? && GetWord(buf, p + 8 * k + 4).Ok?
    ensures ReadEntries(buf, p, count).value[k]
         == Entry(GetInt(buf, p + 8 * k).value, GetWord(buf, p + 8 * k + 4).value)
    decreases count
  {
    hide GetWord, Signed;
    ReadEntriesLength(buf, p, count);
    if k > 0 {
      EntryRead(buf, p + 8, count - 1, k - 1);
    }
  }

  lemma {:induction false} ReadEntriesLength(buf: Bytes, p: int, count: nat)
    requires ReadEntries(buf, p, count).Ok?
    ensures |ReadEntries(buf, p, count).value| == count
    decreases count
  {
    hide GetWord, Signed;
    if count > 0 {
      ReadEntriesLength(buf, p + 8, count - 1);
    }
  }

  lemma {:induction false} TableKeys(entries: seq<Entry>, number: int)
    ensures number in TableAfter(entries) <==> number in Numbers(entries)
    decreases |entries|
  {
    hide Distance;
    if entries != [] {
      var n := |entries| - 1;
      TableKeys(entries[..n], number);
      assert Numbers(entries) == Numbers(entries[..n]) + [entries[n].number];
    }
  }

  /** Every section but the last extends to the next one's offset. */
  lemma {:induction false} TableSizes(entries: seq<Entry>, k: nat)
    requires k + 1 < |entries| && Distinct(Numbers(entries))
    ensures entries[k].number in TableAfter(entries)
    ensures TableAfter(entries)[entries[k].number].size == Some(Distance(entries[k].offset, entries[k + 1].offset))
    decreases |entries|
  {
    hide Distance;
    var n := |entries| - 1;
    var front := entries[..n];
    FrontDistinct(entries);
    TableOffsets(front, k);
    assert Numbers(entries)[k] == entries[k].number && Numbers(entries)[n] == entries[n].number;
    if k + 1 < n {
      TableSizes(front, k);
      assert Numbers(entries)[n - 1] == front[n - 1].number;
    }
  }

  // ---------------------------------------------------------------- conservation of sizes

  function RecordedSize(sections: map<int, Section>, number: int): int {
    if number in sections && sections[number].size.Some? then sections[number].size.value else 0
  }

  /** The sizes of the sections named by the first `k` entries, added up. */
  function SizeSum(sections: map<int, Section>, entries: seq<Entry>, k: nat): int
    requires k <= |entries|
  {
    if k == 0 then 0 else SizeSum(sections, entries, k - 1) + RecordedSize(sections, entries[k - 1].number)
  }

  /** Offsets and sizes below 2 GiB, in any order. */
  ghost predicate Bounded(entries: seq<Entry>, size: int) {
    0 <= size < HALF_WORD && forall k :: 0 <= k < |entries| ==> 0 <= entries[k].offset < HALF_WORD
  }

  /** A distance is exact, and negative if the second position is before the first. */
  lemma ExactDistance(from: int, to: int)
    requires 0 <= from < HALF_WORD && 0 <= to < HALF_WORD
    ensures Distance(from, to) == to - from
  {
  }

  /** The recovered sizes telescope: with distinct numbers they add up to the file size minus the first offset,
      in whatever order the sections stand in the file. */
  lemma {:induction false} SizesTelescope(entries: seq<Entry>, size: int)
    requires entries != [] && Distinct(Numbers(entries)) && Bounded(entries, size)
    ensures SectionTable(entries, size).Ok?
    ensures SizeSum(SectionTable(entries, size).value, entries, |entries|) == size - entries[0].offset
  {
    hide TableAfter, Distance;
    var n := |entries| - 1;
    TableOffsets(entries, n);
    PartialSum(entries, size, n);
    ExactDistance(entries[n].offset, size);
  }

  lemma {:induction false} PartialSum(entries: seq<Entry>, size: int, k: nat)
    requires entries != [] && Distinct(Numbers(entries)) && Bounded(entries, size) && k < |entries|
    ensures SizeSum(SectionTable(entries, size).value, entries, k) == entries[k].offset - entries[0].offset
    decreases k
  {
    hide TableAfter, Distance;
    if k > 0 {
      PartialSum(entries, size, k - 1);
      TableSizes(entries, k - 1);
      ExactDistance(entries[k - 1].offset, entries[k].offset);
      assert Numbers(entries)[k - 1] == entries[k - 1].number
          && Numbers(entries)[|entries| - 1] == entries[|entries| - 1].number;
    }
  }

  // ---------------------------------------------------------------- round trip of the table

  /** The offset of the k-th section of a file. */
  function OffsetIn(sections: seq<SectionBytes>, k: nat): int
    requires k <= |sections|
  {
    4 + |Body(sections[..k])|
  }

  lemma {:induction false} SectionAt(buf: Bytes, base: int, sections: seq<SectionBytes>, k: nat)
    requires k < |sections| && At(buf, base, Body(sections))
    ensures EntriesOf(sections, base)[k].offset == base + |Body(sections[..k])|
    ensures At(buf, base + |Body(sections[..k])|, sections[k].bytes)
    decreases k
  {
    hide At, Body, EntriesOf;
    var first, rest := sections[0], sections[1..];
    FirstSection(sections, base, k);
    AtSplit(buf, base, first.bytes, Body(rest));
    if k > 0 {
      SectionAt(buf, base + |first.bytes|, rest, k - 1);
      BodySplit(sections, k);
    }
  }

  lemma FirstSection(sections: seq<SectionBytes>, base: int, k: nat)
    requires k < |sections|
    ensures Body(sections) == sections[0].bytes + Body(sections[1..]) && |Body(sections[..0])| == 0
    ensures var next := EntriesOf(sections[1..], base + |sections[0].bytes|);
            EntriesOf(sections, base)[k].offset == if k == 0 then base else next[k - 1].offset
  {
  }

  lemma BodySplit(sections: seq<SectionBytes>, k: nat)
    requires 0 < k <= |sections|
    ensures |Body(sections[..k])| == |sections[0].bytes| + |Body(sections[1..][..k - 1])|
  {
    assert sections[..k][0] == sections[0] && sections[..k][1..] == sections[1..][..k - 1];
  }

  ghost predicate FileShape(signature: int, sections: seq<SectionBytes>) {
    && sections != [] && |EncFile(signature, sections)| < HALF_WORD
    && (forall k :: 0 <= k < |sections| ==> IsInt32(sections[k].number))
    && Distinct(Numbers(EntriesOf(sections, 4)))
  }

  lemma {:induction false} FileParts(signature: int, sections: seq<SectionBytes>)
    ensures var buf := EncFile(signature, sections);
            var toc := EncEntries(EntriesOf(sections, 4));
            && At(buf, 4, Body(sections)) && At(buf, 4 + |Body(sections)|, toc)
            && At(buf, 4 + |Body(sections)| + |toc|, CLARISSA) && At(buf, |buf| - 4, EncWord(4 + |Body(sections)|))
            && |buf| == 4 + |Body(sections)| + |toc| + TRAILER_SIZE
  {
    hide At, EncWord, EncInt, Body, EncEntries, EntriesOf;
    var buf := EncFile(signature, sections);
    var body, toc, end := Body(sections), EncEntries(EntriesOf(sections, 4)), EncWord(4 + |Body(sections)|);
    AtSelf([], buf, []);
    assert [] + buf + [] == buf;
    assert |CLARISSA| == 8;
    AtSplit(buf, 0, EncInt(signature), body + (toc + (CLARISSA + end)));
    AtSplit(buf, 4, body, toc + (CLARISSA + end));
    AtSplit(buf, 4 + |body|, toc, CLARISSA + end);
    AtSplit(buf, 4 + |body| + |toc|, CLARISSA, end);
  }

  lemma {:induction false} EntriesRange(sections: seq<SectionBytes>, base: int)
    requires 0 <= base && base + |Body(sections)| < WORD
    requires forall k :: 0 <= k < |sections| ==> IsInt32(sections[k].number)
    ensures EntriesInRange(EntriesOf(sections, base))
    decreases |sections|
  {
    if sections != [] {
      EntriesRange(sections[1..], base + |sections[0].bytes|);
    }
  }

  /** A written file passes the check, and its table leads to exactly the sections written, wherever they were put. */
  lemma SectionTableRoundTrip(signature: int, sections: seq<SectionBytes>)
    requires FileShape(signature, sections)
    ensures IsPsf(EncFile(signature, sections)) && ReadSectionTable(EncFile(signature, sections)).Ok?
    ensures var m := ReadSectionTable(EncFile(signature, sections)).value;
            && (forall number :: number in m <==> exists k :: 0 <= k < |sections| && sections[k].number == number)
            && (forall k :: 0 <= k < |sections| ==>
                  && sections[k].number in m && m[sections[k].number].offset == OffsetIn(sections, k)
                  && At(EncFile(signature, sections), OffsetIn(sections, k), sections[k].bytes))
  {
    hide At, GetWord, EncWord, EncEntries, EntriesOf, Body, TableAfter, EncFile, ReadSectionTable, Distinct, Distance;
    var buf, entries := EncFile(signature, sections), EntriesOf(sections, 4);
    FileParts(signature, sections);
    WrittenTable(signature, sections);
    forall k | 0 <= k < |sections|
      ensures sections[k].number in TableAfter(entries)
              && TableAfter(entries)[sections[k].number].offset == OffsetIn(sections, k)
      ensures At(buf, OffsetIn(sections, k), sections[k].bytes)
    {
      SectionAt(buf, 4, sections, k);
      TableOffsets(entries, k);
    }
    forall number
      ensures number in TableAfter(entries) <==> exists k :: 0 <= k < |sections| && sections[k].number == number
    {
      TableKeys(entries, number);
      NumbersOf(sections, entries, number);
    }
  }

  lemma NumbersOf(sections: seq<SectionBytes>, entries: seq<Entry>, number: int)
    requires |entries| == |sections| && forall k :: 0 <= k < |entries| ==> entries[k].number == sections[k].number
    ensures number in Numbers(entries) <==> exists k :: 0 <= k < |sections| && sections[k].number == number
  {
    if k :| 0 <= k < |sections| && sections[k].number == number {
      assert Numbers(entries)[k] == number;
    }
  }

  /** The table a reader obtains, by the entries that were written. */
  lemma {:induction false} WrittenTable(signature: int, sections: seq<SectionBytes>)
    requires FileShape(signature, sections)
    ensures IsPsf(EncFile(signature, sections))
    ensures ReadSectionTable(EncFile(signature, sections))
            == SectionTable(EntriesOf(sections, 4), |EncFile(signature, sections)|)
  {
    hide At, GetWord, EncWord, EncEntries, EntriesOf, Body, TableAfter, EncFile, SectionTable, IsPsf;
    FileParts(signature, sections);
    BodyInRange(signature, sections);
    EntriesRange(sections, 4);
    var buf, entries := EncFile(signature, sections), EntriesOf(sections, 4);
    var tocOffset := 4 + |Body(sections)|;
    MarkAt(buf);
    WordAt(buf, |buf| - 4, tocOffset);
    CountOf(|buf|, tocOffset, |entries|);
    EntriesAt(buf, tocOffset, entries);
  }

  lemma {:induction false} BodyInRange(signature: int, sections: seq<SectionBytes>)
    requires FileShape(signature, sections)
    ensures 4 + |Body(sections)| < HALF_WORD && |EncFile(signature, sections)| < HALF_WORD
    ensures forall k :: 0 <= k < |sections| ==> IsInt32(sections[k].number)
  {
    FileParts(signature, sections);
  }

  lemma MarkAt(buf: Bytes)
    requires At(buf, |buf| - TRAILER_SIZE, CLARISSA)
    ensures IsPsf(buf)
  {
    assert |CLARISSA| == 8;
  }

  lemma CountOf(size: int, tocOffset: int, count: nat)
    requires size == tocOffset + 8 * count + TRAILER_SIZE && size < HALF_WORD && 0 <= tocOffset
    ensures EntryCount(size, tocOffset) == count
  {
  }

  lemma {:induction false} EntriesBounded(sections: seq<SectionBytes>, base: int, size: int)
    requires 0 <= base && base + |Body(sections)| <= size < HALF_WORD
    ensures Bounded(EntriesOf(sections, base), size)
    ensures sections != [] ==> EntriesOf(sections, base)[0].offset == base
    decreases |sections|
  {
    if sections != [] {
      var first, next := Entry(sections[0].number, base), base + |sections[0].bytes|;
      EntriesBounded(sections[1..], next, size);
      assert EntriesOf(sections, base) == [first] + EntriesOf(sections[1..], next);
    }
  }

  /** In a written file the recovered sizes account for every byte after the signature. */
  lemma {:induction false} WrittenSizesTelescope(signature: int, sections: seq<SectionBytes>)
    requires FileShape(signature, sections)
    ensures ReadSectionTable(EncFile(signature, sections)).Ok?
    ensures SizeSum(ReadSectionTable(EncFile(signature, sections)).value, EntriesOf(sections, 4), |sections|)
            == |EncFile(signature, sections)| - 4
  {
    hide At, GetWord, EncWord, EncEntries, Body, TableAfter, EncFile, SectionTable, ReadSectionTable, Bounded;
    WrittenTable(signature, sections);
    FileParts(signature, sections);
    BodyInRange(signature, sections);
    EntriesBounded(sections, 4, |EncFile(signature, sections)|);
    SizesTelescope(EntriesOf(sections, 4), |EncFile(signature, sections)|);
  }
}
