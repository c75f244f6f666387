/** Turning a vector of structs into a struct of vectors. */
module StructVectors {
  import opened Base
  import opened Words
  import opened Keys
  import opened Types
  import opened Values

  type Members = map<Bytes, Value>

  /** A typed vector: the type it was created for and its cells. */
  datatype Column = Column(body: TypeBody, cells: seq<Value>)

  /** The dynamic_cast of a scalar to the element type of a vector created for `body`. */
  predicate Matches(body: TypeBody, v: Value) {
    match (body, v)
    case (Int8, Int8Value(_)) => true
    case (Int32, Int32Value(_)) => true
    case (Double, DoubleValue(_)) => true
    case (ComplexDouble, ComplexValue(_, _)) => true
    case (Struct(_), StructValue(_)) => true
    case _ => false
  }

  function FieldNames(fields: seq<TypeDef>): seq<Bytes> {
    seq(|fields|, i requires 0 <= i < |fields| => fields[i].name)
  }

  function EmptyColumns(fields: seq<TypeDef>): seq<Column> {
    seq(|fields|, i requires 0 <= i < |fields| => Column(fields[i].body, []))
  }

  /** One empty vector per field name; of definitions with the same name the last one gives the type. */
  function StructColumns(fields: seq<TypeDef>): map<Bytes, Column> {
    LastMap(FieldNames(fields), EmptyColumns(fields))
  }

  lemma StructColumnsAppend(fields: seq<TypeDef>, field: TypeDef)
    ensures StructColumns(fields + [field]) == StructColumns(fields)[field.name := Column(field.body, [])]
  {
    assert FieldNames(fields + [field]) == FieldNames(fields) + [field.name];
    assert EmptyColumns(fields + [field]) == EmptyColumns(fields) + [Column(field.body, [])];
    LastMapAppend(FieldNames(fields), EmptyColumns(fields), field.name, Column(field.body, []));
  }

  /** A struct has every key of the columns, with a value the column accepts. */
  ghost predicate Fits(m: Members, columns: map<Bytes, Column>) {
    forall key :: key in columns ==> key in m && Matches(columns[key].body, m[key])
  }

  /** A struct has the keys of the columns and no other. */
  ghost predicate HasShape(m: Members, columns: map<Bytes, Column>) {
    m.Keys == columns.Keys && Fits(m, columns)
  }

  /** The column of values the structs hold under `key`. */
  function Cells(structs: seq<Members>, key: Bytes): seq<Value>
    requires forall j :: 0 <= j < |structs| ==> key in structs[j]
  {
    seq(|structs|, j requires 0 <= j < |structs| => structs[j][key])
  }

  /** The j-th row across all columns. */
  function Row(columns: map<Bytes, Column>, j: nat): Members
    requires forall key :: key in columns ==> j < |columns[key].cells|
  {
    map key | key in columns :: columns[key].cells[j]
  }

  /** `columns` is the transpose of `structs` over the keys and types of `empty`. */
  ghost predicate Transposed(columns: map<Bytes, Column>, empty: map<Bytes, Column>, structs: seq<Members>) {
    && columns.Keys == empty.Keys
    && forall key :: key in columns ==>
         && (forall j :: 0 <= j < |structs| ==> key in structs[j])
         && columns[key] == Column(empty[key].body, Cells(structs, key))
  }

  class VectorStruct {
    var columns: map<Bytes, Column>
    var n: int

    constructor ()
      ensures columns == map[] && n == 0
    {
      columns, n := map[], 0;
    }

    method InitFromStructDef(fields: seq<TypeDef>)
      requires columns == map[]
      modifies this
      ensures columns == StructColumns(fields) && n == old(n)
    {
      var i := 0;
      while i < |fields|
        invariant 0 <= i <= |fields| && n == old(n)
        invariant columns == StructColumns(fields[..i])
      {
        StructColumnsAppend(fields[..i], fields[i]);
        assert fields[..i + 1] == fields[..i] + [fields[i]];
        columns := columns[fields[i].name := Column(fields[i].body, [])];
        i := i + 1;
      }
      assert fields[..i] == fields;
    }

    /** Fails exactly when some struct lacks a key or holds a value of another type under it. */
    method CopyFromStructVector(structs: seq<Members>) returns (r: Result<int>)
      modifies this
      ensures r.Ok? <==> forall j :: 0 <= j < |structs| ==> Fits(structs[j], old(columns))
      ensures r.Ok? ==> r.value == n == |structs| && Transposed(columns, old(columns), structs)
    {
      var todo := columns.Keys;
      ghost var empty := columns;
      while todo != {}
        invariant columns.Keys == empty.Keys && todo <= columns.Keys
        invariant forall key :: key in todo ==> columns[key] == empty[key]
        invariant forall key :: key in columns && key !in todo ==>
                    && (forall j :: 0 <= j < |structs| ==>
                        key in structs[j] && Matches(empty[key].body, structs[j][key]))
                    && columns[key] == Column(empty[key].body, Cells(structs, key))
        decreases |todo|
      {
        var key :| key in todo;
        var column :- CopyColumn(columns[key], structs, key);
        columns, todo := columns[key := column], todo - {key};
      }
      n := |structs|;
      return Ok(|structs|);
    }

    static method CopyColumn(column: Column, structs: seq<Members>, key: Bytes) returns (r: Result<Column>)
      ensures r.Ok? <==> forall j :: 0 <= j < |structs| ==> key in structs[j] && Matches(column.body, structs[j][key])
      ensures r.Ok? ==> r.value == Column(column.body, Cells(structs, key))
    {
      var cells := [];
      var j := 0;
      while j < |structs|
        invariant 0 <= j <= |structs|
        invariant forall k :: 0 <= k < j ==> key in structs[k] && Matches(column.body, structs[k][key])
        invariant cells == Cells(structs[..j], key)
      {
        if key !in structs[j] { return Err(Undefined); }
        if !Matches(column.body, structs[j][key]) { return Err(BadCast); }
        cells, j := cells + [structs[j][key]], j + 1;
      }
      assert structs[..j] == structs;
      return Ok(Column(column.body, cells));
    }
  }

  /** The inverting constructor of `VectorStruct`. For structs of the definition's shape it always succeeds,
      and reading the columns row by row gives the structs back. */
  method Invert(fields: seq<TypeDef>, structs: seq<Members>) returns (v: VectorStruct, r: Result<int>)
    ensures r.Ok? ==> v.n == |structs| && Transposed(v.columns, StructColumns(fields), structs)
    ensures (forall j :: 0 <= j < |structs| ==> HasShape(structs[j], StructColumns(fields))) ==>
              && r == Ok(|structs|)
              && v.columns.Keys == (set f | f in fields :: f.name)
              && forall j :: 0 <= j < |structs| ==>
                   && (forall key :: key in v.columns ==> j < |v.columns[key].cells|)
                   && Row(v.columns, j) == structs[j]
  {
    v := new VectorStruct();
    v.InitFromStructDef(fields);
    r := v.CopyFromStructVector(structs);
    if r.Ok? {
      StructColumnsKeys(fields);
      TransposeBack(v.columns, StructColumns(fields), structs);
    }
  }

  lemma StructColumnsKeys(fields: seq<TypeDef>)
    ensures StructColumns(fields).Keys == (set f | f in fields :: f.name)
  {
    var names := FieldNames(fields);
    forall key ensures key in StructColumns(fields) <==> key in (set f | f in fields :: f.name) {
      LastMapLookup(names, EmptyColumns(fields), key);
      if key in names {
        var i :| 0 <= i < |names| && names[i] == key;
        assert fields[i] in fields;
      }
      if key in (set f | f in fields :: f.name) {
        var i :| 0 <= i < |fields| && fields[i].name == key;
        assert names[i] == key;
      }
    }
  }

  lemma TransposeBack(columns: map<Bytes, Column>, empty: map<Bytes, Column>, structs: seq<Members>)
    requires Transposed(columns, empty, structs)
    ensures forall key :: key in columns ==> |columns[key].cells| == |structs|
    ensures forall j :: 0 <= j < |structs| && HasShape(structs[j], empty) ==> Row(columns, j) == structs[j]
  {
  }

  /** Every struct the decoder produces has the shape of its definition, so inverting decoded vectors never fails. */
  lemma DecodedStructHasShape(fields: seq<TypeDef>, buf: Bytes, p: int)
    requires DecodeData(Struct(fields), buf, p).Ok?
    ensures var v := DecodeData(Struct(fields), buf, p).value.0;
            v.StructValue? && HasShape(v.members, StructColumns(fields))
  {
    DecodedFieldsShape([], fields, map[], buf, p);
    assert [] + fields == fields;
  }

  lemma {:induction false} DecodedFieldsShape(done: seq<TypeDef>, fields: seq<TypeDef>, members: Members, buf: Bytes,
                                              p: int)
    requires HasShape(members, StructColumns(done)) && DecodeFields(fields, members, buf, p).Ok?
    ensures HasShape(DecodeFields(fields, members, buf, p).value.0, StructColumns(done + fields))
    decreases |fields|
  {
    hide DecodeScalar, StructColumns;
    if fields == [] {
      assert done + fields == done;
    } else {
      var field := fields[0];
      var (v, q) := DecodeScalar(field.body, buf, p).value;
      DecodedScalarMatches(field.body, buf, p);
      StructColumnsAppend(done, field);
      DecodedFieldsShape(done + [field], fields[1..], members[field.name := v], buf, q);
      assert done + fields == done + [field] + fields[1..];
    }
  }

  lemma {:induction false} DecodedScalarMatches(body: TypeBody, buf: Bytes, p: int)
    requires DecodeScalar(body, buf, p).Ok?
    ensures Matches(body, DecodeScalar(body, buf, p).value.0)
  {
  }
}
