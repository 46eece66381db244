/**
  The MySQL auto-increment amender: MySQL requires an AUTO_INCREMENT column to
  be (the first column of) a key, so before a CREATE TABLE statement is written
  its table constraints are reconciled so that the auto-increment column ends up
  in a primary key.
*/
module MySqlAutoIncrementAmender {
  import opened Wrappers

  /** The flags of the ConstraintType flags enumeration that the amender reads or writes. */
  datatype ConstraintKind = PrimaryKey | Unique | AutoIncrement | NotNull | ForeignKey | Default

  /** A constraint: its set flags, its (possibly null) name and the columns it names. */
  datatype Constraint = Constraint(kinds: set<ConstraintKind>, name: Option<string>, columnNames: seq<string>)

  datatype ColumnDefinition = ColumnDefinition(columnName: string, constraints: seq<Constraint>)

  datatype CreateTable = CreateTable(tableName: string, columns: seq<ColumnDefinition>, tableConstraints: seq<Constraint>)

  /** The statements the visitor walks; only CREATE TABLE nodes are rewritten. */
  datatype Statement =
    | CreateTableStatement(table: CreateTable)
    | StatementList(statements: seq<Statement>)
    | OtherStatement(text: string)

  /** The exception raised by LINQ's SingleOrDefault when more than one element matches. */
  datatype Error = InvalidOperation(message: string)

  const MoreThanOneMatch := "Sequence contains more than one matching element"

  /** Some constraint of the column carries the AutoIncrement flag. */
  predicate IsAutoIncrement(c: ColumnDefinition)
  {
    exists i :: 0 <= i < |c.constraints| && AutoIncrement in c.constraints[i].kinds
  }

  predicate IsPrimaryKey(c: Constraint)
  {
    PrimaryKey in c.kinds
  }

  /** The elements of `s` that satisfy `p`, in order (LINQ's Where). */
  function Filter<T(!new)>(s: seq<T>, p: T -> bool): (r: seq<T>)
    ensures |r| <= |s|
  {
    if s == [] then []
    else (if p(s[0]) then [s[0]] else []) + Filter(s[1..], p)
  }

  /** The filter keeps exactly the satisfying elements, and is empty exactly when none satisfies. */
  lemma {:induction false} FilterMembers<T(!new)>(s: seq<T>, p: T -> bool)
    ensures forall x :: x in Filter(s, p) <==> x in s && p(x)
    ensures Filter(s, p) == [] <==> forall i :: 0 <= i < |s| ==> !p(s[i])
  {
    if s != [] {
      FilterMembers(s[1..], p);
      assert forall x :: x in s <==> x == s[0] || x in s[1..];
      if !p(s[0]) {
        assert forall i :: 1 <= i < |s| ==> s[i] == s[1..][i - 1];
      }
    }
  }

  /** The elements of `s` other than `x`, in order (the reference filter `c != x`). */
  function Without<T(==,!new)>(s: seq<T>, x: T): (r: seq<T>)
    ensures |r| <= |s|
    ensures forall y :: y in r <==> y in s && y != x
  {
    if s == [] then []
    else (if s[0] != x then [s[0]] else []) + Without(s[1..], x)
  }

  /**
    LINQ's SingleOrDefault: no match gives None, exactly one gives that element,
    more than one raises InvalidOperation.
  */
  function SingleOrDefault<T(!new)>(s: seq<T>, p: T -> bool): (r: Result<Option<T>, Error>)
    ensures r.Err? <==> |Filter(s, p)| > 1
    ensures r == Ok(None) <==> Filter(s, p) == []
    ensures r.Ok? && r.value.Some? ==> Filter(s, p) == [r.value.value]
  {
    var matches := Filter(s, p);
    if |matches| > 1 then Err(InvalidOperation(MoreThanOneMatch))
    else if matches == [] then Ok(None)
    else Ok(Some(matches[0]))
  }

  /** The primary key synthesised on the auto-increment column alone. */
  function NewPrimaryKey(column: string): Constraint
  {
    Constraint({PrimaryKey}, None, [column])
  }

  /**
    Reconciles one CREATE TABLE node. No auto-increment column: unchanged.
    Column already in the primary key: unchanged. Column outside an existing
    primary key: that key is replaced by a key on the column, followed by a
    Unique constraint over the old key's columns plus the column. No primary key:
    the whole constraint list becomes a key on the column.
  */
  function AmendCreateTable(t: CreateTable): (r: Result<CreateTable, Error>)
    ensures r.Ok? ==> r.value.tableName == t.tableName && r.value.columns == t.columns
  {
    var autoIncrement :- SingleOrDefault(t.columns, IsAutoIncrement);
    if autoIncrement.None? then Ok(t)
    else
      var column := autoIncrement.value.columnName;
      var primaryKey :- SingleOrDefault(t.tableConstraints, IsPrimaryKey);
      if primaryKey.Some? then
        if column in primaryKey.value.columnNames then Ok(t)
        else
          var newUnique := Constraint({Unique}, None, primaryKey.value.columnNames + [column]);
          Ok(t.(tableConstraints := Without(t.tableConstraints, primaryKey.value) + [NewPrimaryKey(column), newUnique]))
      else
        Ok(t.(tableConstraints := [NewPrimaryKey(column)]))
  }

  /** Visits a statement, amending every CREATE TABLE node it contains. */
  function Amend(s: Statement): (r: Result<Statement, Error>)
    ensures r.Ok? ==> (s.StatementList? <==> r.value.StatementList?)
    decreases s, 1
  {
    match s
    case CreateTableStatement(t) =>
      var t' :- AmendCreateTable(t);
      Ok(CreateTableStatement(t'))
    case StatementList(items) =>
      var items' :- AmendAll(items);
      Ok(StatementList(items'))
    case OtherStatement(_) => Ok(s)
  }

  function AmendAll(items: seq<Statement>): (r: Result<seq<Statement>, Error>)
    ensures r.Ok? ==> |r.value| == |items|
    decreases items, 0
  {
    if items == [] then Ok([])
    else
      assert items[0] in items;
      var first :- Amend(items[0]);
      var rest :- AmendAll(items[1..]);
      Ok([first] + rest)
  }

  // ---------------------------------------------------------------------------
  // Properties of the amendment
  // ---------------------------------------------------------------------------

  /** A table with no auto-increment column is left as it is. */
  lemma NoAutoIncrementUnchanged(t: CreateTable)
    requires forall i :: 0 <= i < |t.columns| ==> !IsAutoIncrement(t.columns[i])
    ensures AmendCreateTable(t) == Ok(t)
  {
    FilterMembers(t.columns, IsAutoIncrement);
  }

  /** More than one auto-increment column is an error. */
  lemma TwoAutoIncrementColumnsFail(t: CreateTable)
    requires |Filter(t.columns, IsAutoIncrement)| > 1
    ensures AmendCreateTable(t).Err?
  {
  }

  /** With one auto-increment column, more than one primary-key constraint is an error. */
  lemma TwoPrimaryKeysFail(t: CreateTable)
    requires |Filter(t.columns, IsAutoIncrement)| == 1
    requires |Filter(t.tableConstraints, IsPrimaryKey)| > 1
    ensures AmendCreateTable(t).Err?
  {
  }

  /** When the auto-increment column is already part of the primary key, nothing changes. */
  lemma AlreadyInPrimaryKeyUnchanged(t: CreateTable, column: ColumnDefinition, key: Constraint)
    requires Filter(t.columns, IsAutoIncrement) == [column]
    requires Filter(t.tableConstraints, IsPrimaryKey) == [key]
    requires column.columnName in key.columnNames
    ensures AmendCreateTable(t) == Ok(t)
  {
  }

  /**
    When the auto-increment column is outside the primary key, the new list is
    the other constraints in their order, then a nameless key on the column
    alone, then a nameless Unique constraint on the old key's columns and the
    column.
  */
  lemma OutsidePrimaryKeyRebuilt(t: CreateTable, column: ColumnDefinition, key: Constraint)
    requires Filter(t.columns, IsAutoIncrement) == [column]
    requires Filter(t.tableConstraints, IsPrimaryKey) == [key]
    requires column.columnName !in key.columnNames
    ensures forall c :: c in Without(t.tableConstraints, key) ==> c in t.tableConstraints && !IsPrimaryKey(c)
    ensures AmendCreateTable(t) == Ok(t.(tableConstraints :=
              Without(t.tableConstraints, key)
              + [Constraint({PrimaryKey}, None, [column.columnName]),
                 Constraint({Unique}, None, key.columnNames + [column.columnName])]))
  {
    SoleKeyRemoved(t.tableConstraints, key);
  }

  /** Without a primary key every table constraint is dropped and replaced by a key on the column. */
  lemma NoPrimaryKeyReplaced(t: CreateTable, column: ColumnDefinition)
    requires Filter(t.columns, IsAutoIncrement) == [column]
    requires forall i :: 0 <= i < |t.tableConstraints| ==> !IsPrimaryKey(t.tableConstraints[i])
    ensures AmendCreateTable(t) == Ok(t.(tableConstraints := [Constraint({PrimaryKey}, None, [column.columnName])]))
  {
    FilterMembers(t.tableConstraints, IsPrimaryKey);
  }

  /** The table's auto-increment columns are each named in its one and only primary-key constraint. */
  predicate KeyedAutoIncrement(t: CreateTable)
  {
    forall c :: c in Filter(t.columns, IsAutoIncrement) ==>
      |Filter(t.tableConstraints, IsPrimaryKey)| == 1 &&
      c.columnName in Filter(t.tableConstraints, IsPrimaryKey)[0].columnNames
  }

  /** Removing the only primary-key constraint leaves no primary key. */
  lemma SoleKeyRemoved(s: seq<Constraint>, key: Constraint)
    requires Filter(s, IsPrimaryKey) == [key]
    ensures forall c :: c in Without(s, key) ==> !IsPrimaryKey(c)
    ensures Filter(Without(s, key), IsPrimaryKey) == []
  {
    FilterMembers(s, IsPrimaryKey);
    FilterMembers(Without(s, key), IsPrimaryKey);
  }

  /**
    After a successful amendment, the auto-increment column (if any) appears in
    a primary-key constraint, and there is exactly one primary-key constraint.
  */
  lemma AmendKeysAutoIncrement(t: CreateTable)
    requires AmendCreateTable(t).Ok?
    requires Filter(t.columns, IsAutoIncrement) != []
    ensures KeyedAutoIncrement(AmendCreateTable(t).value)
    ensures |Filter(AmendCreateTable(t).value.tableConstraints, IsPrimaryKey)| == 1
  {
    var column := Filter(t.columns, IsAutoIncrement)[0];
    var name := column.columnName;
    var keys := Filter(t.tableConstraints, IsPrimaryKey);
    var t' := AmendCreateTable(t).value;
    assert Filter(t.columns, IsAutoIncrement) == [column];
    if keys == [] {
      assert t'.tableConstraints == [NewPrimaryKey(name)];
      assert Filter(t'.tableConstraints, IsPrimaryKey) == [NewPrimaryKey(name)] by {
        assert [NewPrimaryKey(name)][1..] == [];
      }
    } else {
      var key := keys[0];
      assert keys == [key];
      if name in key.columnNames {
        assert t' == t;
        FilterMembers(t.tableConstraints, IsPrimaryKey);
      } else {
        var others := Without(t.tableConstraints, key);
        var newUnique := Constraint({Unique}, None, key.columnNames + [name]);
        assert t'.tableConstraints == others + [NewPrimaryKey(name), newUnique];
        SoleKeyRemoved(t.tableConstraints, key);
        FilterAppend(others, [NewPrimaryKey(name), newUnique], IsPrimaryKey);
        assert Filter([NewPrimaryKey(name), newUnique], IsPrimaryKey) == [NewPrimaryKey(name)] by {
          assert [NewPrimaryKey(name), newUnique][1..] == [newUnique];
          assert [newUnique][1..] == [];
        }
      }
    }
  }

  /** Filtering distributes over concatenation. */
  lemma {:induction false} FilterAppend<T(!new)>(a: seq<T>, b: seq<T>, p: T -> bool)
    ensures Filter(a + b, p) == Filter(a, p) + Filter(b, p)
  {
    if a == [] {
      assert a + b == b;
    } else {
      var h := if p(a[0]) then [a[0]] else [];
      calc {
        Filter(a + b, p);
        { assert (a + b)[0] == a[0] && (a + b)[1..] == a[1..] + b; }
        h + Filter(a[1..] + b, p);
        { FilterAppend(a[1..], b, p); }
        h + (Filter(a[1..], p) + Filter(b, p));
        (h + Filter(a[1..], p)) + Filter(b, p);
      }
    }
  }

  /** Every constraint the amender synthesises has a null name; the others keep theirs. */
  lemma SynthesisedNamesNull(t: CreateTable)
    requires AmendCreateTable(t).Ok?
    ensures forall c :: c in AmendCreateTable(t).value.tableConstraints && c !in t.tableConstraints ==> c.name.None?
  {
  }

  /** Amending an amended table changes nothing more. */
  lemma AmendIdempotent(t: CreateTable)
    requires AmendCreateTable(t).Ok?
    ensures AmendCreateTable(AmendCreateTable(t).value) == AmendCreateTable(t)
  {
    var t' := AmendCreateTable(t).value;
    var autos := Filter(t.columns, IsAutoIncrement);
    if autos != [] {
      AmendKeysAutoIncrement(t);
      var column := autos[0];
      assert autos == [column];
      assert Filter(t'.columns, IsAutoIncrement) == [column];
      var key := Filter(t'.tableConstraints, IsPrimaryKey)[0];
      assert Filter(t'.tableConstraints, IsPrimaryKey) == [key];
      AlreadyInPrimaryKeyUnchanged(t', column, key);
    }
  }

  /** A concrete table: a primary key on Name and an auto-increment Id column. */
  lemma PersonTableExample()
    ensures
      var id := ColumnDefinition("Id", [Constraint({AutoIncrement}, None, [])]);
      var name := ColumnDefinition("Name", []);
      var pk := Constraint({PrimaryKey}, Some("PK_Person"), ["Name"]);
      AmendCreateTable(CreateTable("Person", [id, name], [pk]))
        == Ok(CreateTable("Person", [id, name],
              [Constraint({PrimaryKey}, None, ["Id"]), Constraint({Unique}, None, ["Name", "Id"])]))
  {
    var id := ColumnDefinition("Id", [Constraint({AutoIncrement}, None, [])]);
    var name := ColumnDefinition("Name", []);
    var pk := Constraint({PrimaryKey}, Some("PK_Person"), ["Name"]);
    assert IsAutoIncrement(id) by {
      assert AutoIncrement in id.constraints[0].kinds;
    }
    assert [id, name][1..] == [name];
    assert [name][1..] == [];
    assert Filter([id, name], IsAutoIncrement) == [id];
    assert [pk][1..] == [];
    assert Filter([pk], IsPrimaryKey) == [pk];
    assert "Id" != "Name";
    assert "Id" !in pk.columnNames;
    assert Without([pk], pk) == [];
    assert ["Name"] + ["Id"] == ["Name", "Id"];
    var t := CreateTable("Person", [id, name], [pk]);
    assert SingleOrDefault(t.columns, IsAutoIncrement) == Ok(Some(id));
    assert SingleOrDefault(t.tableConstraints, IsPrimaryKey) == Ok(Some(pk));
    assert AmendCreateTable(t) == Ok(t.(tableConstraints := Without([pk], pk) + [NewPrimaryKey("Id"), Constraint({Unique}, None, ["Name"] + ["Id"])]));
    assert Without([pk], pk) + [NewPrimaryKey("Id"), Constraint({Unique}, None, ["Name"] + ["Id"])]
      == [Constraint({PrimaryKey}, None, ["Id"]), Constraint({Unique}, None, ["Name", "Id"])];
  }

  /** Every CREATE TABLE node reached by a successful Amend satisfies the key postcondition. */
  predicate AllKeyed(s: Statement)
    decreases s, 1
  {
    match s
    case CreateTableStatement(t) => KeyedAutoIncrement(t)
    case StatementList(items) => forall i :: 0 <= i < |items| ==> (assert items[i] < s; AllKeyed(items[i]))
    case OtherStatement(_) => true
  }

  lemma {:induction false} AmendTreeKeysAutoIncrement(s: Statement)
    requires Amend(s).Ok?
    ensures AllKeyed(Amend(s).value)
    decreases s, 1
  {
    match s
    case CreateTableStatement(t) =>
      if Filter(t.columns, IsAutoIncrement) != [] {
        AmendKeysAutoIncrement(t);
      } else {
        assert Filter(AmendCreateTable(t).value.columns, IsAutoIncrement) == [];
      }
    case StatementList(items) =>
      AmendAllKeysAutoIncrement(items);
    case OtherStatement(_) =>
  }

  lemma {:induction false} AmendAllKeysAutoIncrement(items: seq<Statement>)
    requires AmendAll(items).Ok?
    ensures forall i :: 0 <= i < |items| ==> AllKeyed(AmendAll(items).value[i])
    decreases items, 0
  {
    if items != [] {
      assert items[0] in items;
      AmendTreeKeysAutoIncrement(items[0]);
      AmendAllKeysAutoIncrement(items[1..]);
    }
  }
}
