/**
  The node-kind discriminator of the SQL-specific expression nodes.

  The enumeration starts at First = 8192 so that its values never collide with
  the general-purpose expression kinds, and every later member takes the
  previous member's value plus one (implicit numbering).
*/
module SqlExpressionTypes {
  import opened Wrappers

  datatype SqlExpressionType =
    | First | Table | Select | Projection | Delete | Where | Limit | Column
    | FunctionCall | OrderBy | Join | Aggregate | AggregateSubquery | Subquery
    | ConstantPlaceholder | Tuple | Type | AlterTable | ConstraintAction
    | ColumnDefinition | CreateTable | CreateType | CreateIndex | OrganizationIndex
    | IndexedColumn | EnumDefinition | Constraint | References | StatementList
    | InsertInto | TableHint | Update | Assign | Pragma | ObjectReference
    | SetCommand | TableOption | Over | Scalar | Exists | In | QueryArgument
    | Union | Keyword | VariableDeclaration | Declare

  /** The explicit value given to the first member. */
  const FirstValue: int := 8192

  /** Number of members declared. */
  const Count: nat := 46

  /** Zero-based position of a member in the declaration. */
  function Position(k: SqlExpressionType): (p: nat)
    ensures p < Count
  {
    match k
    case First => 0
    case Table => 1
    case Select => 2
    case Projection => 3
    case Delete => 4
    case Where => 5
    case Limit => 6
    case Column => 7
    case FunctionCall => 8
    case OrderBy => 9
    case Join => 10
    case Aggregate => 11
    case AggregateSubquery => 12
    case Subquery => 13
    case ConstantPlaceholder => 14
    case Tuple => 15
    case Type => 16
    case AlterTable => 17
    case ConstraintAction => 18
    case ColumnDefinition => 19
    case CreateTable => 20
    case CreateType => 21
    case CreateIndex => 22
    case OrganizationIndex => 23
    case IndexedColumn => 24
    case EnumDefinition => 25
    case Constraint => 26
    case References => 27
    case StatementList => 28
    case InsertInto => 29
    case TableHint => 30
    case Update => 31
    case Assign => 32
    case Pragma => 33
    case ObjectReference => 34
    case SetCommand => 35
    case TableOption => 36
    case Over => 37
    case Scalar => 38
    case Exists => 39
    case In => 40
    case QueryArgument => 41
    case Union => 42
    case Keyword => 43
    case VariableDeclaration => 44
    case Declare => 45
  }

  /** The member declared at a zero-based position, if there is one. */
  function AtPosition(p: int): (r: Option<SqlExpressionType>)
    ensures r.Some? <==> 0 <= p < Count
  {
    match p
    case 0 => Some(First)
    case 1 => Some(Table)
    case 2 => Some(Select)
    case 3 => Some(Projection)
    case 4 => Some(Delete)
    case 5 => Some(Where)
    case 6 => Some(Limit)
    case 7 => Some(Column)
    case 8 => Some(FunctionCall)
    case 9 => Some(OrderBy)
    case 10 => Some(Join)
    case 11 => Some(Aggregate)
    case 12 => Some(AggregateSubquery)
    case 13 => Some(Subquery)
    case 14 => Some(ConstantPlaceholder)
    case 15 => Some(Tuple)
    case 16 => Some(Type)
    case 17 => Some(AlterTable)
    case 18 => Some(ConstraintAction)
    case 19 => Some(ColumnDefinition)
    case 20 => Some(CreateTable)
    case 21 => Some(CreateType)
    case 22 => Some(CreateIndex)
    case 23 => Some(OrganizationIndex)
    case 24 => Some(IndexedColumn)
    case 25 => Some(EnumDefinition)
    case 26 => Some(Constraint)
    case 27 => Some(References)
    case 28 => Some(StatementList)
    case 29 => Some(InsertInto)
    case 30 => Some(TableHint)
    case 31 => Some(Update)
    case 32 => Some(Assign)
    case 33 => Some(Pragma)
    case 34 => Some(ObjectReference)
    case 35 => Some(SetCommand)
    case 36 => Some(TableOption)
    case 37 => Some(Over)
    case 38 => Some(Scalar)
    case 39 => Some(Exists)
    case 40 => Some(In)
    case 41 => Some(QueryArgument)
    case 42 => Some(Union)
    case 43 => Some(Keyword)
    case 44 => Some(VariableDeclaration)
    case 45 => Some(Declare)
    case _ => None
  }

  /** The integer value of a member: the first is 8192, each next one is one more. */
  function Ordinal(k: SqlExpressionType): (v: int)
    ensures FirstValue <= v < FirstValue + Count
  {
    FirstValue + Position(k)
  }

  /** The member with a given integer value, if any (a cast from the integer). */
  function FromOrdinal(v: int): (r: Option<SqlExpressionType>)
    ensures r.Some? <==> FirstValue <= v < FirstValue + Count
  {
    AtPosition(v - FirstValue)
  }

  /** Taking the position of a member and looking it up gives the member back. */
  lemma {:induction false} PositionRoundTrip(k: SqlExpressionType)
    ensures AtPosition(Position(k)) == Some(k)
  {
  }

  /** Looking up a position and taking the member's position gives the position back. */
  lemma AtPositionRoundTrip(p: int)
    requires 0 <= p < Count
    ensures Position(AtPosition(p).value) == p
  {
  }

  /** Converting a member to its value and back gives the member, and vice versa. */
  lemma OrdinalRoundTrip(k: SqlExpressionType, v: int)
    ensures FromOrdinal(Ordinal(k)) == Some(k)
    ensures FromOrdinal(v).Some? ==> Ordinal(FromOrdinal(v).value) == v
  {
    PositionRoundTrip(k);
    if FirstValue <= v < FirstValue + Count {
      AtPositionRoundTrip(v - FirstValue);
    }
  }

  /** Every member after the first is numbered one more than the member declared before it. */
  lemma ImplicitNumbering(p: int)
    requires 0 < p < Count
    ensures Ordinal(AtPosition(p).value) == Ordinal(AtPosition(p - 1).value) + 1
  {
    AtPositionRoundTrip(p);
    AtPositionRoundTrip(p - 1);
  }

  /** Distinct members have distinct values, all greater than First's. */
  lemma OrdinalInjective(a: SqlExpressionType, b: SqlExpressionType)
    ensures Ordinal(a) == Ordinal(b) <==> a == b
    ensures a != First ==> Ordinal(a) > Ordinal(First)
  {
    PositionRoundTrip(a);
    PositionRoundTrip(b);
  }

  /**
    Some values in full. The trailing comments beside the members give the
    offset from 8190, not the value: Where is 8197 and Column is 8199. Also the
    two kinds the comparison expander tests for.
  */
  lemma NotableValues()
    ensures Ordinal(First) == 8192 && Ordinal(Table) == 8193
    ensures Ordinal(Projection) == 8195 && Ordinal(Where) == 8197 && Ordinal(Column) == 8199
    ensures Ordinal(ObjectReference) == 8226 && Ordinal(Declare) == 8237
  {
  }
}
