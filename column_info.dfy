/**
  The column metadata of a persisted property: the chain of properties visited
  to reach it from the table's object type, and the property that defines the
  column. Its names are built by concatenating the persisted name pieces of the
  chain, and each getter keeps the first name it computes in a cache field.
*/
module ColumnInfos {
  import opened Wrappers
  import opened Strings

  /** The naming facts of a property descriptor that the column names are built from. */
  datatype PropertyDescriptor = PropertyDescriptor(
    propertyName: string,
    persistedName: string,
    persistedShortName: string,
    persistedPrefixName: string)

  /** GetTailColumnName on a column reached through no property. */
  datatype ColumnError = NoVisitedProperties

  function PrefixNames(visited: seq<PropertyDescriptor>): (r: seq<string>)
    ensures |r| == |visited|
    ensures forall i :: 0 <= i < |visited| ==> r[i] == visited[i].persistedPrefixName
  {
    if visited == [] then [] else [visited[0].persistedPrefixName] + PrefixNames(visited[1..])
  }

  function PropertyNames(visited: seq<PropertyDescriptor>): (r: seq<string>)
    ensures |r| == |visited|
    ensures forall i :: 0 <= i < |visited| ==> r[i] == visited[i].propertyName
  {
    if visited == [] then [] else [visited[0].propertyName] + PropertyNames(visited[1..])
  }

  /** The column name: the definition's persisted name, or the chain's prefixes and its short name. */
  function ColumnNameOf(visited: seq<PropertyDescriptor>, definition: PropertyDescriptor): string
  {
    if |visited| == 0 then definition.persistedName
    else Concat(PrefixNames(visited)) + definition.persistedShortName
  }

  /** The tail name: the column name without the first visited property's prefix. */
  function TailColumnNameOf(visited: seq<PropertyDescriptor>, definition: PropertyDescriptor): Result<string, ColumnError>
  {
    if |visited| == 0 then Err(NoVisitedProperties)
    else if |visited| == 1 then Ok(Concat(PrefixNames(visited[1..])) + definition.persistedName)
    else Ok(Concat(PrefixNames(visited[1..])) + definition.persistedShortName)
  }

  /** The dotted names of the visited properties. */
  function FullParentNameOf(visited: seq<PropertyDescriptor>): string
  {
    Join(PropertyNames(visited), ".")
  }

  /** The dotted names of the visited properties and of the definition property. */
  function FullPropertyNameOf(visited: seq<PropertyDescriptor>, definition: PropertyDescriptor): string
  {
    Join(PropertyNames(visited) + [definition.propertyName], ".")
  }

  // ---------------------------------------------------------------------------
  // How the names relate
  // ---------------------------------------------------------------------------

  /**
    With no visited property the column is named by the definition alone;
    otherwise the name is every visited prefix, in order, then the short name.
  */
  lemma ColumnNameParts(visited: seq<PropertyDescriptor>, definition: PropertyDescriptor)
    ensures visited == [] ==> ColumnNameOf(visited, definition) == definition.persistedName
    ensures |visited| == 1 ==>
      ColumnNameOf(visited, definition) == visited[0].persistedPrefixName + definition.persistedShortName
    ensures forall k :: 0 < k <= |visited| ==>
      ColumnNameOf(visited, definition) ==
        Concat(PrefixNames(visited[..k])) + Concat(PrefixNames(visited[k..])) + definition.persistedShortName
  {
    forall k | 0 < k <= |visited|
      ensures ColumnNameOf(visited, definition) ==
        Concat(PrefixNames(visited[..k])) + Concat(PrefixNames(visited[k..])) + definition.persistedShortName
    {
      assert PrefixNames(visited) == PrefixNames(visited[..k]) + PrefixNames(visited[k..]);
      ConcatAppend(PrefixNames(visited[..k]), PrefixNames(visited[k..]));
    }
    if |visited| == 1 {
      assert PrefixNames(visited)[1..] == [];
    }
  }

  /**
    Through two or more properties the column name is the first property's
    prefix followed by the tail name; through exactly one, the tail name is the
    definition's full persisted name; through none there is no tail name.
  */
  lemma {:induction false} TailOfColumnName(visited: seq<PropertyDescriptor>, definition: PropertyDescriptor)
    ensures TailColumnNameOf(visited, definition).Err? <==> visited == []
    ensures |visited| >= 2 ==>
      ColumnNameOf(visited, definition) == visited[0].persistedPrefixName + TailColumnNameOf(visited, definition).value
    ensures |visited| == 1 ==> TailColumnNameOf(visited, definition) == Ok(definition.persistedName)
  {
    if |visited| >= 2 {
      assert PrefixNames(visited) == [visited[0].persistedPrefixName] + PrefixNames(visited[1..]);
      ConcatAppend([visited[0].persistedPrefixName], PrefixNames(visited[1..]));
      assert Concat([visited[0].persistedPrefixName]) == visited[0].persistedPrefixName + Concat([]);
    }
    if |visited| == 1 {
      assert PrefixNames(visited[1..]) == [];
      assert Concat(PrefixNames(visited[1..])) + definition.persistedName == definition.persistedName;
    }
  }

  /** The full property name is the full parent name, a dot and the definition's name (just that name at the root). */
  lemma FullPropertyNameExtendsParent(visited: seq<PropertyDescriptor>, definition: PropertyDescriptor)
    ensures visited == [] ==> FullPropertyNameOf(visited, definition) == definition.propertyName
    ensures visited != [] ==>
      FullPropertyNameOf(visited, definition) == FullParentNameOf(visited) + "." + definition.propertyName
  {
    if visited != [] {
      JoinSnoc(PropertyNames(visited), definition.propertyName, ".");
    } else {
      assert PropertyNames(visited) + [definition.propertyName] == [definition.propertyName];
    }
  }

  // ---------------------------------------------------------------------------
  // The struct and its caches
  // ---------------------------------------------------------------------------

  class ColumnInfo {
    var visitedProperties: seq<PropertyDescriptor>
    var definitionProperty: PropertyDescriptor
    var columnName: Option<string>
    var tailColumnName: Option<string>
    var fullParentName: Option<string>
    var fullPropertyName: Option<string>

    /** Every cache that is filled holds the name the current properties give. */
    ghost predicate Valid()
      reads this
    {
      (columnName.Some? ==> columnName.value == ColumnNameOf(visitedProperties, definitionProperty)) &&
      (tailColumnName.Some? ==>
        TailColumnNameOf(visitedProperties, definitionProperty) == Ok(tailColumnName.value)) &&
      (fullParentName.Some? ==> fullParentName.value == FullParentNameOf(visitedProperties)) &&
      (fullPropertyName.Some? ==> fullPropertyName.value == FullPropertyNameOf(visitedProperties, definitionProperty))
    }

    /** The object initializer: the properties are set, and no name is cached yet. */
    constructor(visited: seq<PropertyDescriptor>, definition: PropertyDescriptor)
      ensures visitedProperties == visited && definitionProperty == definition
      ensures columnName.None? && tailColumnName.None? && fullParentName.None? && fullPropertyName.None?
      ensures Valid()
    {
      visitedProperties := visited;
      definitionProperty := definition;
      columnName := None;
      tailColumnName := None;
      fullParentName := None;
      fullPropertyName := None;
    }

    /** The column name, computed on the first call and cached. */
    method GetColumnName() returns (r: string)
      requires Valid()
      modifies this
      ensures Valid()
      ensures r == ColumnNameOf(visitedProperties, definitionProperty) && columnName == Some(r)
      ensures visitedProperties == old(visitedProperties) && definitionProperty == old(definitionProperty)
      ensures tailColumnName == old(tailColumnName) && fullParentName == old(fullParentName)
      ensures fullPropertyName == old(fullPropertyName)
    {
      if columnName.Some? {
        return columnName.value;
      }
      var name: string;
      if |visitedProperties| == 0 {
        name := definitionProperty.persistedName;
      } else {
        name := Concat(PrefixNames(visitedProperties));
        name := name + definitionProperty.persistedShortName;
      }
      columnName := Some(name);
      return name;
    }

    /** The tail column name, computed on the first call and cached; no visited property is an error, cache or not. */
    method GetTailColumnName() returns (r: Result<string, ColumnError>)
      requires Valid()
      modifies this
      ensures Valid()
      ensures r == TailColumnNameOf(visitedProperties, definitionProperty)
      ensures r.Ok? ==> tailColumnName == Some(r.value)
      ensures r.Err? ==> tailColumnName == old(tailColumnName)
      ensures visitedProperties == old(visitedProperties) && definitionProperty == old(definitionProperty)
      ensures columnName == old(columnName) && fullParentName == old(fullParentName)
      ensures fullPropertyName == old(fullPropertyName)
    {
      if |visitedProperties| == 0 {
        return Err(NoVisitedProperties);
      }
      if tailColumnName.None? {
        var name := Concat(PrefixNames(visitedProperties[1..]));
        if |visitedProperties| == 1 {
          name := name + definitionProperty.persistedName;
        } else {
          name := name + definitionProperty.persistedShortName;
        }
        tailColumnName := Some(name);
      }
      return Ok(tailColumnName.value);
    }

    /** The full parent name, computed on the first call and cached. */
    method GetFullParentName() returns (r: string)
      requires Valid()
      modifies this
      ensures Valid()
      ensures r == FullParentNameOf(visitedProperties) && fullParentName == Some(r)
      ensures visitedProperties == old(visitedProperties) && definitionProperty == old(definitionProperty)
      ensures columnName == old(columnName) && tailColumnName == old(tailColumnName)
      ensures fullPropertyName == old(fullPropertyName)
    {
      if fullParentName.None? {
        fullParentName := Some(Join(PropertyNames(visitedProperties), "."));
      }
      return fullParentName.value;
    }

    /** The full property name, computed on the first call and cached. */
    method GetFullPropertyName() returns (r: string)
      requires Valid()
      modifies this
      ensures Valid()
      ensures r == FullPropertyNameOf(visitedProperties, definitionProperty) && fullPropertyName == Some(r)
      ensures visitedProperties == old(visitedProperties) && definitionProperty == old(definitionProperty)
      ensures columnName == old(columnName) && tailColumnName == old(tailColumnName)
      ensures fullParentName == old(fullParentName)
    {
      if fullPropertyName.None? {
        fullPropertyName := Some(Join(PropertyNames(visitedProperties) + [definitionProperty.propertyName], "."));
      }
      return fullPropertyName.value;
    }

    /** The text of a column is its column name. */
    method ToString() returns (r: string)
      requires Valid()
      modifies this
      ensures Valid()
      ensures r == ColumnNameOf(visitedProperties, definitionProperty) && columnName == Some(r)
      ensures visitedProperties == old(visitedProperties) && definitionProperty == old(definitionProperty)
      ensures tailColumnName == old(tailColumnName) && fullParentName == old(fullParentName)
      ensures fullPropertyName == old(fullPropertyName)
    {
      r := GetColumnName();
    }
  }

  /** Asking twice gives the same names: the second answers come from the caches. */
  method GettersAreIdempotent(visited: seq<PropertyDescriptor>, definition: PropertyDescriptor)
    returns (same: bool)
    ensures same
  {
    var c := new ColumnInfo(visited, definition);
    var n1 := c.GetColumnName();
    var t1 := c.GetTailColumnName();
    var p1 := c.GetFullParentName();
    var f1 := c.GetFullPropertyName();
    var n2 := c.GetColumnName();
    var t2 := c.GetTailColumnName();
    var p2 := c.GetFullParentName();
    var f2 := c.GetFullPropertyName();
    var s := c.ToString();
    same := n1 == n2 && t1 == t2 && p1 == p2 && f1 == f2 && s == n1;
  }
}
