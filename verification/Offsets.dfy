/** Where each trace sits in a point or a window: the offset map and the layout it describes. */
module Offsets {
  import opened Base
  import opened Words
  import opened Properties
  import opened Types
  import opened Values
  import opened Chunks
  import opened Containers

  function Ascii(s: string): Bytes {
    seq(|s|, i requires 0 <= i < |s| => s[i] as int % 128)
  }

  const KEY := Ascii("key")
  const SWEEP := Ascii("sweep")
  const HEADER_SIZE := 8

  /** A piece of a point or window: the two words in front of a top-level trace or group, or a trace's slot. */
  datatype Item = Header(tag: int, owner: int) | Slot(id: int, size: int) {
    function Size(): int {
      if Header? then HEADER_SIZE else size
    }
  }

  function Total(items: seq<Item>): int {
    if items == [] then 0 else Total(items[..|items| - 1]) + items[|items| - 1].Size()
  }

  function SizeOf(items: Result<seq<Item>>): Result<int> {
    match items
    case Ok(layout) => Ok(Total(layout))
    case Err(e) => Err(e)
  }

  /** The offset map after the slots of `items`, laid out from `start` on, were entered into it. */
  function AddSlots(offsets: map<int, int>, items: seq<Item>, start: int): map<int, int> {
    if items == [] then offsets
    else
      var front, last := items[..|items| - 1], items[|items| - 1];
      var rest := AddSlots(offsets, front, start);
      if last.Header? then rest else rest[last.id := start + Total(front)]
  }

  lemma {:induction false} TotalConcat(a: seq<Item>, b: seq<Item>)
    ensures Total(a + b) == Total(a) + Total(b)
  {
    if b == [] {
      assert a + b == a;
    } else {
      TotalConcat(a, b[..|b| - 1]);
      assert (a + b)[..|a + b| - 1] == a + b[..|b| - 1];
    }
  }

  lemma {:induction false} AddSlotsConcat(offsets: map<int, int>, a: seq<Item>, b: seq<Item>, start: int)
    ensures AddSlots(offsets, a + b, start) == AddSlots(AddSlots(offsets, a, start), b, start + Total(a))
  {
    if b == [] {
      assert a + b == a;
    } else {
      var front := b[..|b| - 1];
      AddSlotsConcat(offsets, a, front, start);
      TotalConcat(a, front);
      assert (a + b)[..|a + b| - 1] == a + front;
    }
  }

  // ---------------------------------------------------------------- layouts

  /** The slots of a group's members; with window size 0 they are as large as their data. */
  function MemberItems(types: TypeTable, members: seq<TypeRef>, windowSize: int): Result<seq<Item>> {
    if members == [] then Ok([])
    else
      var item :- MemberItem(types, members[0], windowSize);
      var rest :- MemberItems(types, members[1..], windowSize);
      Ok([item] + rest)
  }

  function MemberItem(types: TypeTable, ref: TypeRef, windowSize: int): Result<Item> {
    if windowSize != 0 then Ok(Slot(ref.id, windowSize))
    else
      var def :- LookupType(types, ref.typeId);
      Ok(Slot(ref.id, DataSize(def.body)))
  }

  /** The tag an object of the chunk's class was created with. */
  function ChunkTag<V>(c: Chunk<V>): int {
    match c
    case PropertyChunk(prop) => PropertyTag(prop)
    case TypeChunk(_) => TAG_TYPE
    case RefChunk(_) => TAG_REF
    case GroupChunk(_) => TAG_GROUP
    case ValueChunk(_, _, _, _, _) => -1
  }

  /** The type of a top-level trace must have a "key"; sweeps listed among the traces take no room. */
  function IsSweepType(def: TypeDef): Result<bool> {
    var key :- FindIn(def.props, KEY);
    Ok(key == Text(SWEEP))
  }

  /** What one child of the trace section adds to a point. */
  function PointItemsOf(types: TypeTable, c: Chunk<Value>): Result<seq<Item>> {
    match c
    case RefChunk(ref) =>
      var def :- LookupType(types, ref.typeId);
      var isSweep :- IsSweepType(def);
      Ok(if isSweep then [] else [Header(TAG_REF, ref.id), Slot(ref.id, DataSize(def.body))])
    case GroupChunk(group) =>
      var items :- MemberItems(types, group.members, 0);
      Ok([Header(TAG_GROUP, group.id)] + items)
    case _ => Err(IncorrectChunk(ChunkTag(c)))
  }

  /** What one child of the trace section adds to a window: only groups are accepted. */
  function WindowItemsOf(types: TypeTable, c: Chunk<Value>, windowSize: int): Result<seq<Item>> {
    if c.GroupChunk? then MemberItems(types, c.group.members, windowSize) else Err(IncorrectChunk(ChunkTag(c)))
  }

  /** The layout of a window (given its size) or of a point. */
  function LayoutOf(types: TypeTable, c: Chunk<Value>, window: Option<int>): Result<seq<Item>> {
    if window.Some? then WindowItemsOf(types, c, window.value) else PointItemsOf(types, c)
  }

  function Layout(types: TypeTable, traces: Children, window: Option<int>): Result<seq<Item>> {
    if traces == [] then Ok([])
    else
      var items :- LayoutOf(types, traces[0], window);
      var rest :- Layout(types, traces[1..], window);
      Ok(items + rest)
  }

  // ---------------------------------------------------------------- the offset map

  /** `GroupDef::fill_offsetmap`. */
  method FillOffsetMap(offsets: map<int, int>, types: TypeTable, members: seq<TypeRef>, windowSize: int, start: int)
    returns (r: Result<int>, filled: map<int, int>)
    ensures r == SizeOf(MemberItems(types, members, windowSize))
    ensures r.Ok? ==> filled == AddSlots(offsets, MemberItems(types, members, windowSize).value, start)
  {
    hide MemberItem, Join;
    filled := offsets;
    var offset := start;
    ghost var done: seq<Item> := [];
    assert members[0..] == members;
    JoinEnds([], MemberItems(types, members, windowSize));
    for i := 0 to |members|
      invariant MemberItems(types, members, windowSize) == Join(done, MemberItems(types, members[i..], windowSize))
      invariant filled == AddSlots(offsets, done, start) && offset == start + Total(done)
    {
      ghost var rest := MemberItems(types, members[i + 1..], windowSize);
      assert members[i..][0] == members[i] && members[i..][1..] == members[i + 1..];
      var item := MemberItem(types, members[i], windowSize);
      MemberItemsStep(types, members[i..], windowSize);
      if item.Err? {
        JoinError(done, item.error);
        return Err(item.error), filled;
      }
      JoinStep(done, [item.value], rest);
      MemberItemIsSlot(types, members[i], windowSize);
      assert (done + [item.value])[..|done|] == done;
      filled := filled[members[i].id := offset];
      offset := offset + item.value.Size();
      done := done + [item.value];
    }
    JoinEnds(done, Ok([]));
    r := Ok(offset - start);
  }

  lemma {:induction false} MemberItemsStep(types: TypeTable, members: seq<TypeRef>, windowSize: int)
    requires members != []
    ensures MemberItems(types, members, windowSize)
         == match MemberItem(types, members[0], windowSize)
            case Ok(item) => Join([item], MemberItems(types, members[1..], windowSize))
            case Err(e) => Err(e)
  {
    hide MemberItem;
  }

  lemma MemberItemIsSlot(types: TypeTable, ref: TypeRef, windowSize: int)
    requires MemberItem(types, ref, windowSize).Ok?
    ensures MemberItem(types, ref, windowSize).value.Slot? && MemberItem(types, ref, windowSize).value.id == ref.id
  {
  }

  lemma {:induction false} LayoutStep(types: TypeTable, traces: Children, window: Option<int>)
    requires traces != []
    ensures Layout(types, traces, window)
         == match LayoutOf(types, traces[0], window)
            case Ok(items) => Join(items, Layout(types, traces[1..], window))
            case Err(e) => Err(e)
  {
    hide LayoutOf;
  }

  /** The state `_create_valueoffsetmap` builds. */
  class OffsetMap {
    var offsets: map<int, int>
    var valueSize: int

    constructor ()
      ensures offsets == map[] && valueSize == 0
    {
      offsets, valueSize := map[], 0;
    }

    /** `_create_valueoffsetmap`: the offsets of all slots of the layout, and its total size. */
    method Create(types: TypeTable, traces: Children, window: Option<int>) returns (r: Result<()>)
      modifies this
      ensures match Layout(types, traces, window)
              case Ok(items) => r == Ok(()) && offsets == AddSlots(old(offsets), items, 0) && valueSize == Total(items)
              case Err(e) => r == Err(e)
    {
      hide LayoutOf, Join, AddSlots;
      ghost var done: seq<Item> := [];
      valueSize := 0;
      var valueOffset := 0;
      assert traces[0..] == traces;
      JoinEnds([], Layout(types, traces, window));
      assert AddSlots(offsets, [], 0) == offsets by { NoSlots(offsets, 0); }
      for i := 0 to |traces|
        invariant Layout(types, traces, window) == Join(done, Layout(types, traces[i..], window))
        invariant offsets == AddSlots(old(offsets), done, 0)
        invariant valueSize == valueOffset == Total(done)
      {
        assert traces[i..][0] == traces[i] && traces[i..][1..] == traces[i + 1..];
        LayoutStep(types, traces[i..], window);
        ghost var items := LayoutOf(types, traces[i], window);
        var child, filled := EnterChild(offsets, types, traces[i], window, valueOffset);
        if child.Err? {
          JoinError(done, child.error);
          return Err(child.error);
        }
        JoinStep(done, items.value, Layout(types, traces[i + 1..], window));
        AddSlotsConcat(old(offsets), done, items.value, 0);
        TotalConcat(done, items.value);
        offsets := filled;
        valueSize := valueSize + child.value;
        valueOffset := valueOffset + child.value;
        done := done + items.value;
      }
      JoinEnds(done, Ok([]));
      return Ok(());
    }
  }

  /** The loop body: the slots of one top-level trace or group, and the bytes it takes. */
  method EnterChild(offsets: map<int, int>, types: TypeTable, c: Chunk<Value>, window: Option<int>, valueOffset: int)
    returns (r: Result<int>, filled: map<int, int>)
    ensures r == SizeOf(LayoutOf(types, c, window))
    ensures r.Ok? ==> filled == AddSlots(offsets, LayoutOf(types, c, window).value, valueOffset)
  {
    filled := offsets;
    if window.Some? {
      if !c.GroupChunk? { return Err(IncorrectChunk(ChunkTag(c))), filled; }
      r, filled := FillOffsetMap(offsets, types, c.group.members, window.value, valueOffset);
    } else if c.RefChunk? {
      var def := LookupType(types, c.ref.typeId);
      if def.Err? { return Err(def.error), filled; }
      var isSweep := IsSweepType(def.value);
      if isSweep.Err? { return Err(isSweep.error), filled; }
      if isSweep.value { return Ok(0), filled; }
      filled := filled[c.ref.id := valueOffset + HEADER_SIZE];
      r := Ok(HEADER_SIZE + DataSize(def.value.body));
      HeadedSlot(offsets, Header(TAG_REF, c.ref.id), Slot(c.ref.id, DataSize(def.value.body)), valueOffset);
    } else if c.GroupChunk? {
      r, filled := FillOffsetMap(offsets, types, c.group.members, 0, valueOffset + HEADER_SIZE);
      if r.Err? { return; }
      var size := r.value;
      ghost var items := MemberItems(types, c.group.members, 0).value;
      HeadedItems(offsets, Header(TAG_GROUP, c.group.id), items, valueOffset);
      r := Ok(HEADER_SIZE + size);
    } else {
      return Err(IncorrectChunk(ChunkTag(c))), filled;
    }
  }

  lemma {:induction false} NoSlots(offsets: map<int, int>, start: int)
    ensures AddSlots(offsets, [], start) == offsets
  {
  }

  lemma {:induction false} HeadedItems(offsets: map<int, int>, header: Item, items: seq<Item>, start: int)
    requires header.Header?
    ensures Total([header] + items) == HEADER_SIZE + Total(items)
    ensures AddSlots(offsets, [header] + items, start) == AddSlots(offsets, items, start + HEADER_SIZE)
  {
    assert [header][..0] == [];
    TotalConcat([header], items);
    AddSlotsConcat(offsets, [header], items, start);
  }

  lemma {:induction false} HeadedSlot(offsets: map<int, int>, header: Item, slot: Item, start: int)
    requires header.Header? && slot.Slot?
    ensures Total([header, slot]) == HEADER_SIZE + slot.size
    ensures AddSlots(offsets, [header, slot], start) == offsets[slot.id := start + HEADER_SIZE]
  {
    assert [header, slot] == [header] + [slot] && [slot][..0] == [];
    HeadedItems(offsets, header, [slot], start);
  }

  // ---------------------------------------------------------------- packing

  /** The offset of the k-th item of a layout. */
  function OffsetAt(items: seq<Item>, k: nat): int
    requires k <= |items|
  {
    Total(items[..k])
  }

  ghost predicate DistinctSlots(items: seq<Item>) {
    forall j, k :: 0 <= j < |items| && 0 <= k < |items| && items[j].Slot? && items[k].Slot?
        && items[j].id == items[k].id
      ==> j == k
  }

  ghost predicate NonNegative(items: seq<Item>) {
    forall k :: 0 <= k < |items| ==> items[k].Size() >= 0
  }

  lemma {:induction false} OffsetsGrow(items: seq<Item>, j: nat, k: nat)
    requires NonNegative(items) && j < k <= |items|
    ensures 0 <= OffsetAt(items, j) && OffsetAt(items, j) + items[j].Size() <= OffsetAt(items, k)
    decreases k
  {
    var front := items[..k];
    assert front[..k - 1] == items[..k - 1];
    if j < k - 1 {
      OffsetsGrow(items, j, k - 1);
    } else {
      assert Total(items[..k]) == Total(items[..j]) + items[j].Size();
      if j > 0 {
        OffsetsGrow(items, 0, j);
      }
    }
  }

  lemma {:induction false} SlotOffset(items: seq<Item>, k: nat)
    requires DistinctSlots(items) && k < |items| && items[k].Slot?
    ensures items[k].id in AddSlots(map[], items, 0) && AddSlots(map[], items, 0)[items[k].id] == OffsetAt(items, k)
    decreases |items|
  {
    var n := |items| - 1;
    var front := items[..n];
    if k < n {
      assert front[..k] == items[..k] && DistinctSlots(front);
      SlotOffset(front, k);
    }
  }

  /** The map enters every slot of a layout with distinct identifiers, at places that are pairwise disjoint
      and inside the layout. */
  lemma {:induction false} Packing(items: seq<Item>)
    requires DistinctSlots(items) && NonNegative(items)
    ensures var offsets := AddSlots(map[], items, 0);
            && (forall k :: 0 <= k < |items| && items[k].Slot? ==>
                  && items[k].id in offsets
                  && 0 <= offsets[items[k].id] && offsets[items[k].id] + items[k].size <= Total(items))
            && (forall j, k :: 0 <= j < |items| && 0 <= k < |items| && j != k && items[j].Slot? && items[k].Slot? ==>
                  || offsets[items[j].id] + items[j].size <= offsets[items[k].id]
                  || offsets[items[k].id] + items[k].size <= offsets[items[j].id])
  {
    hide AddSlots, DistinctSlots, OffsetAt;
    var offsets := AddSlots(map[], items, 0);
    forall k | 0 <= k < |items| && items[k].Slot?
      ensures items[k].id in offsets && offsets[items[k].id] == OffsetAt(items, k)
      ensures 0 <= offsets[items[k].id] && offsets[items[k].id] + items[k].size <= Total(items)
    {
      SlotOffset(items, k);
      OffsetsGrow(items, k, |items|);
      WholeLayout(items);
    }
    forall j, k | 0 <= j < |items| && 0 <= k < |items| && j != k
      ensures || OffsetAt(items, j) + items[j].Size() <= OffsetAt(items, k)
              || OffsetAt(items, k) + items[k].Size() <= OffsetAt(items, j)
    {
      if j < k { OffsetsGrow(items, j, k); } else { OffsetsGrow(items, k, j); }
    }
  }

  lemma {:induction false} WholeLayout(items: seq<Item>)
    ensures OffsetAt(items, |items|) == Total(items)
  {
    assert items[..|items|] == items;
  }
}
