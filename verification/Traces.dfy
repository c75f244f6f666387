/** Names of traces and their lookup, at the top level and inside groups. */
module Traces {
  import opened Base
  import opened Words
  import opened Keys
  import opened Values
  import opened Chunks
  import opened Containers

  /** The traces a child of the trace section contributes. */
  function LeavesOf(c: Chunk<Value>): seq<TypeRef> {
    match c
    case RefChunk(ref) => [ref]
    case GroupChunk(group) => group.members
    case _ => []
  }

  /** All traces in the order of the section, group members in place. */
  function Leaves(children: Children): seq<TypeRef> {
    if children == [] then [] else LeavesOf(children[0]) + Leaves(children[1..])
  }

  function TraceNames(children: Children): seq<Bytes> {
    MemberNames(Leaves(children))
  }

  ghost predicate TraceChildren(children: Children) {
    forall c :: c in children ==> OfKind(TraceKind, c)
  }

  lemma {:induction false} LeavesAppend(children: Children, c: Chunk<Value>)
    ensures Leaves(children + [c]) == Leaves(children) + LeavesOf(c)
  {
    if children == [] {
      assert [] + [c] == [c] && [c][1..] == [];
    } else {
      assert (children + [c])[1..] == children[1..] + [c];
      LeavesAppend(children[1..], c);
    }
  }

  /** `TraceSection::get_names` lists the names of all traces in order. */
  method GetNames(children: Children) returns (names: seq<Bytes>)
    requires TraceChildren(children)
    ensures names == TraceNames(children)
  {
    hide LeavesOf;
    names := [];
    assert children[..0] == [];
    for i := 0 to |children|
      invariant names == TraceNames(children[..i])
    {
      var c := children[i];
      assert c in children;
      LeavesAppend(children[..i], c);
      assert children[..i + 1] == children[..i] + [c];
      assert TraceNames(children[..i + 1]) == TraceNames(children[..i]) + MemberNames(LeavesOf(c));
      if c.GroupChunk? {
        assert LeavesOf(c) == c.group.members by { LeavesOfChild(c); }
        names := names + MemberNames(c.group.members);
      } else {
        assert MemberNames(LeavesOf(c)) == [c.Name()] by { LeavesOfChild(c); }
        names := names + [c.Name()];
      }
    }
    assert children[..|children|] == children;
  }

  lemma LeavesOfChild(c: Chunk<Value>)
    requires OfKind(TraceKind, c)
    ensures c.GroupChunk? ==> LeavesOf(c) == c.group.members
    ensures c.RefChunk? ==> LeavesOf(c) == [c.ref] && c.Name() == c.ref.name && MemberNames([c.ref]) == [c.ref.name]
    ensures c.GroupChunk? || c.RefChunk?
  {
  }

  // ---------------------------------------------------------------- lookup

  function FirstGroup(children: Children): (r: Option<nat>)
    ensures r.Some? ==> r.value < |children| && children[r.value].GroupChunk?
                        && forall j :: 0 <= j < r.value ==> !children[j].GroupChunk?
    ensures r.None? ==> forall j :: 0 <= j < |children| ==> !children[j].GroupChunk?
  {
    if children == [] then None
    else if children[0].GroupChunk? then Some(0)
    else
      match FirstGroup(children[1..])
      case Some(i) => Some(i + 1)
      case None => None
  }

  /** `GroupDef::get_child_index`, through the name index of the group's members. */
  function MemberIndex(group: GroupDef, name: Bytes): (r: Result<int>)
    ensures r.Ok? ==> 0 <= r.value < |group.members| && group.members[r.value].name == name
    ensures r.Ok? ==> forall j :: r.value < j < |group.members| ==> group.members[j].name != name
    ensures r.Err? ==> r.error == NotFound && forall j :: 0 <= j < |group.members| ==> group.members[j].name != name
  {
    assert forall j :: 0 <= j < |group.members| ==> MemberNames(group.members)[j] == group.members[j].name;
    match LastIndexOf(MemberNames(group.members), name)
    case Some(k) => Ok(k)
    case None => Err(NotFound)
  }

  function AsTrace(c: Chunk<Value>): Result<TypeRef> {
    if c.RefChunk? then Ok(c.ref) else Err(BadCast)
  }

  function TraceByName(children: Children, name: Bytes): Result<TypeRef> {
    match ChildNamed(children, name)
    case Ok(c) => AsTrace(c)
    case Err(_) =>
      match FirstGroup(children)
      case None => Err(NotFound)
      case Some(g) =>
        var k :- MemberIndex(children[g].group, name);
        Ok(children[g].group.members[k])
  }

  /** `get_trace_by_name`: the loop over groups never gets past the first one. */
  method GetTraceByName(section: IndexedContainer, name: Bytes) returns (r: Result<TypeRef>)
    requires section.Valid()
    ensures r == TraceByName(section.children, name)
  {
    var child := section.GetChildByName(name);
    if child.Ok? { return AsTrace(child.value); }
    for i := 0 to |section.children|
      invariant forall j :: 0 <= j < i ==> !section.children[j].GroupChunk?
    {
      if section.children[i].GroupChunk? {
        var group := section.children[i].group;
        var k := MemberIndex(group, name);
        return if k.Ok? then Ok(group.members[k.value]) else Err(k.error);
      }
    }
    return Err(NotFound);
  }

  /** One pair of indexes for every group from position `base` on; a group without the name throws. */
  function GroupIndexes(children: Children, base: int, name: Bytes): Result<seq<int>> {
    if children == [] then Ok([])
    else if children[0].GroupChunk? then
      var k :- MemberIndex(children[0].group, name);
      var rest :- GroupIndexes(children[1..], base + 1, name);
      Ok([base, k] + rest)
    else
      GroupIndexes(children[1..], base + 1, name)
  }

  function TraceIndexByName(children: Children, name: Bytes): Result<seq<int>> {
    match LastIndexOf(Names(children), name)
    case Some(i) => Ok([i])
    case None => GroupIndexes(children, 0, name)
  }

  method GetTraceIndexByName(section: IndexedContainer, name: Bytes) returns (r: Result<seq<int>>)
    requires section.Valid()
    ensures r == TraceIndexByName(section.children, name)
  {
    var top := section.GetChildIndex(name);
    if top != -1 { return Ok([top]); }
    var children := section.children;
    var index: seq<int> := [];
    assert children[0..] == children;
    assert forall s: seq<int> :: [] + s == s;
    for i := 0 to |children|
      invariant GroupIndexes(children, 0, name) == Join(index, GroupIndexes(children[i..], i, name))
    {
      assert children[i..][0] == children[i] && children[i..][1..] == children[i + 1..];
      if children[i].GroupChunk? {
        var k :- MemberIndex(children[i].group, name);
        ghost var rest := GroupIndexes(children[i + 1..], i + 1, name);
        if rest.Ok? {
          assert index + ([i, k] + rest.value) == index + [i, k] + rest.value;
        }
        index := index + [i, k];
      }
    }
    assert index + [] == index;
    return Ok(index);
  }

  function TraceByIndex(children: Children, index: seq<int>): Result<TypeRef> {
    if index == [] then Err(Undefined)
    else if !(0 <= index[0] < |children|) then Err(OutOfRange)
    else if |index| == 1 then AsTrace(children[index[0]])
    else if !children[index[0]].GroupChunk? then Err(BadCast)
    else if !(0 <= index[1] < |children[index[0]].group.members|) then Err(OutOfRange)
    else Ok(children[index[0]].group.members[index[1]])
  }

  /** In every section, an index found for a name leads to the trace found by that name. */
  lemma IndexLeadsToName(children: Children, name: Bytes)
    requires TraceIndexByName(children, name).Ok? && TraceIndexByName(children, name).value != []
    ensures TraceByIndex(children, TraceIndexByName(children, name).value) == TraceByName(children, name)
  {
    if LastIndexOf(Names(children), name).None? {
      GroupIndexesStart(children, 0, name);
    }
  }

  lemma {:induction false} GroupIndexesStart(children: Children, base: int, name: Bytes)
    requires GroupIndexes(children, base, name).Ok?
    ensures var index := GroupIndexes(children, base, name).value;
            match FirstGroup(children)
            case None => index == []
            case Some(g) =>
              |index| >= 2 && index[0] == base + g && MemberIndex(children[g].group, name) == Ok(index[1])
  {
    hide MemberIndex;
    if children != [] && !children[0].GroupChunk? {
      GroupIndexesStart(children[1..], base + 1, name);
    }
  }

  /** A name absent from the top level is found exactly when the first group has a member of that name,
      whatever other groups hold; its index is found exactly when every group has one. */
  lemma GroupedNameFoundExactly(children: Children, name: Bytes)
    requires name !in Names(children)
    ensures TraceByName(children, name).Ok? <==>
            exists g, k :: 0 <= g < |children| && children[g].GroupChunk? && 0 <= k < |children[g].group.members|
                           && children[g].group.members[k].name == name
                           && forall j :: 0 <= j < g ==> !children[j].GroupChunk?
    ensures TraceIndexByName(children, name).Ok? <==>
            forall g :: 0 <= g < |children| && children[g].GroupChunk? ==>
                name in MemberNames(children[g].group.members)
  {
    GroupIndexesOk(children, 0, name);
    match FirstGroup(children)
    case None =>
    case Some(g) =>
      var members := children[g].group.members;
      assert forall k :: 0 <= k < |members| ==> MemberNames(members)[k] == members[k].name;
      var found := LastIndexOf(MemberNames(members), name);
      if found.Some? {
        assert members[found.value].name == name;
      }
  }

  lemma {:induction false} GroupIndexesOk(children: Children, base: int, name: Bytes)
    ensures GroupIndexes(children, base, name).Ok? <==>
            forall g :: 0 <= g < |children| && children[g].GroupChunk? ==>
                name in MemberNames(children[g].group.members)
  {
    if children != [] {
      var rest := children[1..];
      GroupIndexesOk(rest, base + 1, name);
      assert forall g :: 0 < g < |children| ==> children[g] == rest[g - 1];
      assert forall g :: 0 <= g < |rest| ==> rest[g] == children[g + 1];
    }
  }

  // ---------------------------------------------------------------- listed names

  /** The children are those of a parsed section, and no two traces have the same name. */
  ghost predicate NamedApart(children: Children) {
    TraceChildren(children) && Distinct(TraceNames(children))
  }

  /** A group hides a trace of the same name by being the last child called so: any such group if the trace is
      a member of a group, one behind the trace if it stands at the top level. */
  ghost predicate Shadows(children: Children, g: nat, j: nat, k: nat)
    requires g < |children| && j < |children| && k < |LeavesOf(children[j])|
  {
    && children[g].GroupChunk? && children[g].group.name == LeavesOf(children[j])[k].name
    && (children[j].GroupChunk? || g > j)
  }

  ghost predicate Shadowed(children: Children, j: nat, k: nat)
    requires j < |children| && k < |LeavesOf(children[j])|
  {
    exists g: nat :: g < |children| && Shadows(children, g, j, k)
  }

  /** The position in `Leaves` of the first trace of child `j`. */
  function LeafBase(children: Children, j: nat): nat
    requires j <= |children|
  {
    if j == 0 then 0 else |LeavesOf(children[0])| + LeafBase(children[1..], j - 1)
  }

  lemma {:induction false} LeafAt(children: Children, j: nat, k: nat)
    requires j < |children| && k < |LeavesOf(children[j])|
    ensures LeafBase(children, j) + k < |Leaves(children)|
    ensures Leaves(children)[LeafBase(children, j) + k] == LeavesOf(children[j])[k]
  {
    if j > 0 {
      LeafAt(children[1..], j - 1, k);
    }
  }

  lemma {:induction false} LeafBaseGrows(children: Children, i: nat, j: nat)
    requires i < j <= |children|
    ensures LeafBase(children, i) + |LeavesOf(children[i])| <= LeafBase(children, j)
    decreases |children|
  {
    if i > 0 {
      LeafBaseGrows(children[1..], i - 1, j - 1);
    }
  }

  /** Every listed trace comes from some child. */
  lemma {:induction false} LeafOrigin(children: Children, n: nat) returns (j: nat, k: nat)
    requires n < |Leaves(children)|
    ensures j < |children| && k < |LeavesOf(children[j])| && n == LeafBase(children, j) + k
  {
    var first := |LeavesOf(children[0])|;
    if n < first {
      j, k := 0, n;
    } else {
      j, k := LeafOrigin(children[1..], n - first);
      j := j + 1;
    }
  }

  lemma LeavesApart(children: Children, j: nat, k: nat, j2: nat, k2: nat)
    requires Distinct(TraceNames(children))
    requires j < |children| && k < |LeavesOf(children[j])| && j2 < |children| && k2 < |LeavesOf(children[j2])|
    requires LeavesOf(children[j])[k].name == LeavesOf(children[j2])[k2].name
    ensures j == j2 && k == k2
  {
    LeafAt(children, j, k);
    LeafAt(children, j2, k2);
    var names, a, b := TraceNames(children), LeafBase(children, j) + k, LeafBase(children, j2) + k2;
    assert names[a] == names[b];
    if j < j2 { LeafBaseGrows(children, j, j2); }
    if j2 < j { LeafBaseGrows(children, j2, j); }
  }

  /** A child called like a listed trace is that trace or a group. */
  lemma TopLevelCarrier(children: Children, j: nat, k: nat, l: nat)
    requires NamedApart(children) && j < |children| && k < |LeavesOf(children[j])| && l < |children|
    requires children[l].Name() == LeavesOf(children[j])[k].name
    ensures children[l].GroupChunk? || (children[l].RefChunk? && l == j)
  {
    hide LeavesOf, Distinct, LeafBase;
    ChildIsTrace(children, l);
    LeavesOfChild(children[l]);
    if children[l].RefChunk? {
      LeavesApart(children, j, k, l, 0);
    }
  }

  /** What a listed trace's name leads to at the top level. */
  lemma TopLevelName(children: Children, j: nat, k: nat)
    requires NamedApart(children) && j < |children| && k < |LeavesOf(children[j])|
    ensures match LastIndexOf(Names(children), LeavesOf(children[j])[k].name)
            case None => children[j].GroupChunk? && !Shadowed(children, j, k)
            case Some(l) =>
              if Shadowed(children, j, k) then children[l].GroupChunk? else children[j].RefChunk? && l == j
  {
    hide LeavesOf, NamedApart;
    var name := LeavesOf(children[j])[k].name;
    ChildIsTrace(children, j);
    LeavesOfChild(children[j]);
    assert forall l :: 0 <= l < |children| ==> Names(children)[l] == children[l].Name();
    match LastIndexOf(Names(children), name)
    case None =>
      assert forall g: nat :: g < |children| ==> Names(children)[g] != name;
    case Some(l) =>
      TopLevelCarrier(children, j, k, l);
      if children[l].GroupChunk? {
        assert Shadows(children, l, j, k);
      }
  }

  lemma ChildIsTrace(children: Children, j: nat)
    requires NamedApart(children) && j < |children|
    ensures children[j].GroupChunk? || children[j].RefChunk?
  {
    assert children[j] in children;
  }

  /** What a listed trace's name finds: the trace, unless a group of that name hides it or it sits in a group
      other than the first. */
  lemma {:induction false} LeafLookup(children: Children, j: nat, k: nat)
    requires NamedApart(children) && j < |children| && k < |LeavesOf(children[j])|
    ensures var leaf := LeavesOf(children[j])[k];
            TraceByName(children, leaf.name)
            == if Shadowed(children, j, k) then Err(BadCast)
               else if children[j].RefChunk? || FirstGroup(children) == Some(j) then Ok(leaf)
               else Err(NotFound)
  {
    hide NamedApart, Shadowed;
    ChildIsTrace(children, j);
    TopLevelName(children, j, k);
    if children[j].GroupChunk? {
      var name := LeavesOf(children[j])[k].name;
      var g := FirstGroup(children).value;
      match MemberIndex(children[g].group, name)
      case Ok(k2) => ApartInGroups(children, j, k, g, k2);
      case Err(_) => assert MemberNames(children[j].group.members)[k] == name;
    }
  }

  lemma ApartInGroups(children: Children, j: nat, k: nat, j2: nat, k2: nat)
    requires NamedApart(children)
    requires j < |children| && k < |LeavesOf(children[j])| && j2 < |children| && k2 < |LeavesOf(children[j2])|
    requires LeavesOf(children[j])[k].name == LeavesOf(children[j2])[k2].name
    ensures j == j2 && k == k2
  {
    LeavesApart(children, j, k, j2, k2);
  }

  /** When the index of a listed trace's name exists, and what it leads to. */
  lemma LeafIndexLookup(children: Children, j: nat, k: nat)
    requires NamedApart(children) && j < |children| && k < |LeavesOf(children[j])|
    ensures var leaf := LeavesOf(children[j])[k];
            var index := TraceIndexByName(children, leaf.name);
            && (index.Ok? <==>
                || Shadowed(children, j, k) || children[j].RefChunk?
                || forall g :: 0 <= g < |children| && children[g].GroupChunk? ==> g == j)
            && (index.Ok? ==>
                TraceByIndex(children, index.value) == if Shadowed(children, j, k) then Err(BadCast) else Ok(leaf))
  {
    hide NamedApart, TraceByIndex, TraceByName, LeavesOf, Shadowed;
    ChildIsTrace(children, j);
    TopLevelName(children, j, k);
    LeafLookup(children, j, k);
    var name := LeavesOf(children[j])[k].name;
    if TraceIndexByName(children, name).Ok? {
      if LastIndexOf(Names(children), name).None? {
        GroupIndexesStart(children, 0, name);
      }
      IndexLeadsToName(children, name);
    }
    if children[j].GroupChunk? {
      OnlyGroupHolding(children, j, k);
      GroupIndexesOk(children, 0, name);
      FirstOfOne(children, j);
    }
  }

  lemma {:induction false} FirstOfOne(children: Children, j: nat)
    requires j < |children| && children[j].GroupChunk?
    ensures (forall g :: 0 <= g < |children| && children[g].GroupChunk? ==> g == j) ==> FirstGroup(children) == Some(j)
  {
  }

  lemma OnlyGroupHolding(children: Children, j: nat, k: nat)
    requires NamedApart(children) && j < |children| && children[j].GroupChunk? && k < |LeavesOf(children[j])|
    ensures forall g :: 0 <= g < |children| && children[g].GroupChunk? ==>
              (LeavesOf(children[j])[k].name in MemberNames(children[g].group.members) <==> g == j)
  {
    hide NamedApart;
    var name := LeavesOf(children[j])[k].name;
    assert MemberNames(children[j].group.members)[k] == name;
    forall g | 0 <= g < |children| && children[g].GroupChunk? && name in MemberNames(children[g].group.members)
      ensures g == j
    {
      var k2 :| 0 <= k2 < |children[g].group.members| && MemberNames(children[g].group.members)[k2] == name;
      ApartInGroups(children, j, k, g, k2);
    }
  }

  /** The name of a trace finds it. */
  predicate Found(children: Children, ref: TypeRef) {
    TraceByName(children, ref.name) == Ok(ref)
  }

  /** The name of a trace has an index that leads to it. */
  predicate Indexed(children: Children, ref: TypeRef) {
    var index := TraceIndexByName(children, ref.name);
    index.Ok? && TraceByIndex(children, index.value) == Ok(ref)
  }

  ghost predicate AllFound(children: Children) {
    forall n :: 0 <= n < |Leaves(children)| ==> Found(children, Leaves(children)[n])
  }

  ghost predicate AllIndexed(children: Children) {
    forall n :: 0 <= n < |Leaves(children)| ==> Indexed(children, Leaves(children)[n])
  }

  /** Groups whose members are never found by name. */
  ghost predicate OthersEmpty(children: Children) {
    forall g :: 0 <= g < |children| && children[g].GroupChunk? && FirstGroup(children) != Some(g) ==>
      children[g].group.members == []
  }

  ghost predicate OneGroupOrEmpty(children: Children) {
    forall g, h :: 0 <= g < |children| && 0 <= h < |children| && children[g].GroupChunk? && children[h].GroupChunk? ==>
      children[g].group.members == [] || h == g
  }

  /** No listed trace is hidden by a group of its name. */
  ghost predicate NoShadow(children: Children) {
    forall j: nat, k: nat :: j < |children| && k < |LeavesOf(children[j])| ==> !Shadowed(children, j, k)
  }

  /** Something holds of all listed traces when it holds of all traces of all children. */
  lemma {:induction false} EveryLeaf(children: Children, good: TypeRef -> bool)
    ensures (forall n :: 0 <= n < |Leaves(children)| ==> good(Leaves(children)[n])) <==>
            forall j: nat, k: nat :: j < |children| && k < |LeavesOf(children[j])| ==> good(LeavesOf(children[j])[k])
  {
    hide LeavesOf, Leaves, LeafBase;
    if forall n :: 0 <= n < |Leaves(children)| ==> good(Leaves(children)[n]) {
      forall j: nat, k: nat | j < |children| && k < |LeavesOf(children[j])| ensures good(LeavesOf(children[j])[k]) {
        LeafAt(children, j, k);
      }
    }
    if forall j: nat, k: nat :: j < |children| && k < |LeavesOf(children[j])| ==> good(LeavesOf(children[j])[k]) {
      forall n | 0 <= n < |Leaves(children)| ensures good(Leaves(children)[n]) {
        var j, k := LeafOrigin(children, n);
        LeafAt(children, j, k);
      }
    }
  }

  /** In a section of distinctly named traces, every listed name finds its trace exactly when all groups but the
      first are empty and no group hides a trace by its name. */
  lemma ListedNamesFoundExactly(children: Children)
    requires NamedApart(children)
    ensures AllFound(children) <==> OthersEmpty(children) && NoShadow(children)
  {
    hide NamedApart, Found, FirstGroup, Shadowed, LeavesOf, Leaves;
    EachFound(children);
    forall j: nat, k: nat | j < |children| && k < |LeavesOf(children[j])|
      ensures Found(children, LeavesOf(children[j])[k]) <==>
              !Shadowed(children, j, k) && (children[j].RefChunk? || FirstGroup(children) == Some(j))
    {
      FoundExactly(children, j, k);
    }
    forall g: nat | g < |children|
      ensures children[g].GroupChunk? || children[g].RefChunk?
      ensures children[g].GroupChunk? ==> LeavesOf(children[g]) == children[g].group.members
    {
      ChildLeaves(children, g);
    }
    if AllFound(children) {
      forall g | 0 <= g < |children| && children[g].GroupChunk? && children[g].group.members != []
        ensures FirstGroup(children) == Some(g)
      {
        assert Found(children, LeavesOf(children[g])[0]);
      }
    }
  }

  lemma EachFound(children: Children)
    ensures AllFound(children) <==>
            forall j: nat, k: nat :: j < |children| && k < |LeavesOf(children[j])| ==>
                Found(children, LeavesOf(children[j])[k])
  {
    hide Found, LeavesOf, Leaves;
    EveryLeaf(children, (ref: TypeRef) => Found(children, ref));
  }

  lemma {:induction false} FoundExactly(children: Children, j: nat, k: nat)
    requires NamedApart(children) && j < |children| && k < |LeavesOf(children[j])|
    ensures Found(children, LeavesOf(children[j])[k]) <==>
            !Shadowed(children, j, k) && (children[j].RefChunk? || FirstGroup(children) == Some(j))
  {
    hide NamedApart, TraceByName, FirstGroup, Shadowed, LeavesOf;
    LeafLookup(children, j, k);
  }

  lemma ChildLeaves(children: Children, j: nat)
    requires NamedApart(children) && j < |children|
    ensures children[j].GroupChunk? || children[j].RefChunk?
    ensures children[j].GroupChunk? ==> LeavesOf(children[j]) == children[j].group.members
  {
    ChildIsTrace(children, j);
  }

  /** Every listed name has an index that leads to its trace exactly when there is at most one group or no group
      has members, and no group hides a trace by its name. */
  lemma ListedNamesIndexedExactly(children: Children)
    requires NamedApart(children)
    ensures AllIndexed(children) <==> OneGroupOrEmpty(children) && NoShadow(children)
  {
    hide NamedApart, Indexed, Shadowed, LeavesOf, Leaves;
    EachIndexed(children);
    forall j: nat, k: nat | j < |children| && k < |LeavesOf(children[j])|
      ensures Indexed(children, LeavesOf(children[j])[k]) <==>
              && !Shadowed(children, j, k)
              && (children[j].RefChunk? || forall g :: 0 <= g < |children| && children[g].GroupChunk? ==> g == j)
    {
      IndexedExactly(children, j, k);
    }
    forall g: nat | g < |children|
      ensures children[g].GroupChunk? || children[g].RefChunk?
      ensures children[g].GroupChunk? ==> LeavesOf(children[g]) == children[g].group.members
    {
      ChildLeaves(children, g);
    }
    if AllIndexed(children) {
      forall g, h | 0 <= g < |children| && 0 <= h < |children| && children[g].GroupChunk? && children[h].GroupChunk?
        ensures children[g].group.members == [] || h == g
      {
        if children[g].group.members != [] {
          assert Indexed(children, LeavesOf(children[g])[0]);
        }
      }
    }
  }

  lemma EachIndexed(children: Children)
    ensures AllIndexed(children) <==>
            forall j: nat, k: nat :: j < |children| && k < |LeavesOf(children[j])| ==>
                Indexed(children, LeavesOf(children[j])[k])
  {
    hide Indexed, LeavesOf, Leaves;
    EveryLeaf(children, (ref: TypeRef) => Indexed(children, ref));
  }

  lemma IndexedExactly(children: Children, j: nat, k: nat)
    requires NamedApart(children) && j < |children| && k < |LeavesOf(children[j])|
    ensures Indexed(children, LeavesOf(children[j])[k]) <==>
            && !Shadowed(children, j, k)
            && (children[j].RefChunk? || forall g :: 0 <= g < |children| && children[g].GroupChunk? ==> g == j)
  {
    hide NamedApart, TraceIndexByName, TraceByIndex, Shadowed, LeavesOf;
    LeafIndexLookup(children, j, k);
  }

  // ---------------------------------------------------------------- names that are not found

  function GroupOf(name: char, member: char): Chunk<Value> {
    GroupChunk(GroupDef(1, [name as int % 128], [TypeRef(2, [member as int % 128], 3, [])]))
  }

  /** Two groups "f" and "g" with a trace each: the trace "b" of the second one is listed but not found. A group
      "g" that holds a trace "g" hides it. */
  lemma ListedButNotFound()
    ensures var two := [GroupOf('f', 'a'), GroupOf('g', 'b')];
            TraceNames(two) == [['a' as int], ['b' as int]] && TraceByName(two, ['b' as int]) == Err(NotFound)
    ensures var one := [GroupOf('g', 'g')];
            TraceNames(one) == [['g' as int]] && OthersEmpty(one) && TraceByName(one, ['g' as int]) == Err(BadCast)
  {
    var two, one := [GroupOf('f', 'a'), GroupOf('g', 'b')], [GroupOf('g', 'g')];
    var a, b := two[0].group.members, two[1].group.members;
    assert two[1..] == [two[1]] && two[1..][1..] == [] && one[1..] == [];
    assert Leaves(two[1..]) == b && Leaves(two) == a + b;
    assert Names(two) == [['f' as int], ['g' as int]] && MemberNames(a) == [['a' as int]];
    assert FirstGroup(two) == Some(0);
    assert Leaves(one) == one[0].group.members && Names(one) == [['g' as int]];
  }
}
