# Shaolinq query-rewrite and SQL-emission core, in Dafny

This project models the part of Shaolinq that turns a LINQ expression tree into
SQL text. It also states and proves what each piece does. Every piece is a
sequential transform over an expression tree, a constraint list or a string.
The pieces are:

- **Object-operand comparison expander** (`object_operand_comparison.dfy`,
  module `ObjectOperandComparison`). It rewrites `==` and `!=` between whole
  objects, and `IsNull`/`IsNotNull` on an object, into And-chains over the
  objects' primary-key elements. It rewrites a null test on a sub-query
  projection into `EXISTS` or `NOT EXISTS`.
- **MySQL auto-increment amender** (`mysql_auto_increment.dfy`). It reconciles
  the constraints of a CREATE TABLE node so that the auto-increment column ends
  up in a primary key.
- **Expression interpreter** (`expression_interpreter.dfy`, with the
  operand-type ladder in `promotion.dfy`). It is a partial evaluator with a
  failure sentinel. When the sentinel comes back, it falls back to compiled
  execution. Reflection, conversions and the compiled fallback are parameters:
  the `Host` record of functions, and the `compiled` function.
- **Referenced-related-object gatherer** (`related_object_gatherer.dfy`). It is
  a stateful tree walk. It registers every prefix of a navigation chain once in
  path-keyed maps: the first object filed under a path is kept, while the
  root expression stored for a path is replaced by the latest one, so only
  the set of root paths grows. It expands `Include` calls into
  included-path records. The walk is stated twice:
  - as a pure function `Walk` over an explicit `State`, about which the
    properties are proved;
  - as the class `Gatherer`, with the source's fields. Each of its methods is
    proved to agree with `Walk`.

  The type-mapping questions are a `TypeModel` of abstract predicates.
- **SQL Server dialect formatter** (`sqlserver_formatter.dfy`). It is an
  append-only text buffer, the class `Formatter`, plus one pure function-name
  resolver. Each text-writing method is proved to append exactly the text that a
  pure function gives. The properties are proved about those functions. The base
  formatter's behaviour is a `BaseWriter` record of functions.
- **Column names** (`column_info.dfy`). The names are built by concatenating
  the persisted-name pieces of a property chain. The class `ColumnInfo` keeps
  the first answer of each getter in a cache field.
- **CREATE INDEX node** (`create_index.dfy`): its constructors and
  `ChangeWhere`.
- **Aggregate sub-query finder** (`aggregate_subquery_finder.dfy`). It collects
  the aggregate sub-queries of a tree in visit order.
- **Node-kind enumeration** (`sql_expression_type.dfy`): the implicitly
  numbered `SqlExpressionType`.
- **Async rewriter command line** (`async_rewriter_args.dfy`): the argument loop
  of the tool's `Main`.

`wrappers.dfy` holds `Option` and `Result`. `strings.dfy` holds the .NET string
operations the core uses: `string.Join`, `String.Split(char)` and
`string.Concat`.

## Model

| member | source | states |
|---|---|---|
| ObjectOperandComparison.IsObjectOperand | src/Shaolinq/Persistence/Linq/Optimizers/SqlObjectOperandComparisonExpander.cs:144-145 | The operands the pass expands are exactly object constructions (MemberInit) and object references. |
| ObjectOperandComparison.PrimaryKeyElements | src/Shaolinq/Persistence/Linq/Optimizers/SqlObjectOperandComparisonExpander.cs:40-93 | An expression that is neither a MemberInit nor an ObjectReference decomposes to the empty sequence. |
| ObjectOperandComparison.KeyElementsAreScalar | src/Shaolinq/Persistence/Linq/Optimizers/SqlObjectOperandComparisonExpander.cs:53-63 | Decomposition recurses through nested objects down to scalars: no key element is itself an object operand. |
| ObjectOperandComparison.BindingElementsAreScalar | src/Shaolinq/Persistence/Linq/Optimizers/SqlObjectOperandComparisonExpander.cs:76-92 | The same holds for the elements of any binding list, with or without the primary-key filter. |
| ObjectOperandComparison.KeyValues | src/Shaolinq/Persistence/Linq/Optimizers/SqlObjectOperandComparisonExpander.cs:46-51 | The values of the primary-key property assignments: at most one per binding. |
| ObjectOperandComparison.AssignedValues | src/Shaolinq/Persistence/Linq/Optimizers/SqlObjectOperandComparisonExpander.cs:76-79 | The values of all member assignments: at most one per binding. |
| ObjectOperandComparison.FlatMemberInitKeys | src/Shaolinq/Persistence/Linq/Optimizers/SqlObjectOperandComparisonExpander.cs:42-66 | With scalar values, a MemberInit's key elements are exactly its primary-key property assignment values, in binding order. |
| ObjectOperandComparison.FlatObjectReferenceKeys | src/Shaolinq/Persistence/Linq/Optimizers/SqlObjectOperandComparisonExpander.cs:69-92 | With scalar values, an ObjectReference's elements are all its assignment values, with no primary-key filter. |
| ObjectOperandComparison.FlatBindingElements | src/Shaolinq/Persistence/Linq/Optimizers/SqlObjectOperandComparisonExpander.cs:46-64 | With scalar values, decomposing bindings adds nothing to the key-filtered or unfiltered assignment values. |
| ObjectOperandComparison.MemberInitKeysComeFromKeyBindings | src/Shaolinq/Persistence/Linq/Optimizers/SqlObjectOperandComparisonExpander.cs:46-58 | Every key element of a MemberInit is a primary-key assignment's value, or an element of that value's decomposition. |
| ObjectOperandComparison.BindingElementsOrigin | src/Shaolinq/Persistence/Linq/Optimizers/SqlObjectOperandComparisonExpander.cs:76-92 | Every element comes from some assignment binding (a primary-key one when filtering), directly or by decomposition. |
| ObjectOperandComparison.Zip | src/Shaolinq/Persistence/Linq/Optimizers/SqlObjectOperandComparisonExpander.cs:152-153 | LINQ Zip pairs elements position by position, and its length is that of the shorter input (silent truncation). |
| ObjectOperandComparison.AndChain | src/Shaolinq/Persistence/Linq/Optimizers/SqlObjectOperandComparisonExpander.cs:171-178 | The fold over the terms: no term gives null, and one term gives that term. |
| ObjectOperandComparison.ConjunctsOfAndChain | src/Shaolinq/Persistence/Linq/Optimizers/SqlObjectOperandComparisonExpander.cs:171-178 | Splitting the built left-associated chain at its And nodes gives back the terms, in order. |
| ObjectOperandComparison.PairComparisons | src/Shaolinq/Persistence/Linq/Optimizers/SqlObjectOperandComparisonExpander.cs:159-166 | There is one comparison per key pair, with the node's own operator, left element against right element. |
| ObjectOperandComparison.PerElementCalls | src/Shaolinq/Persistence/Linq/Optimizers/SqlObjectOperandComparisonExpander.cs:108-110 | There is one call of the same function per key element, in order. |
| ObjectOperandComparison.ExpandObjectEquality | src/Shaolinq/Persistence/Linq/Optimizers/SqlObjectOperandComparisonExpander.cs:142-181 | Object `==`/`!=` becomes an And-chain whose i-th term compares the i-th key elements of the visited operands. It has min(\|left keys\|, \|right keys\|) terms, and null when that is 0. |
| ObjectOperandComparison.ExpandObjectOtherOperator | src/Shaolinq/Persistence/Linq/Optimizers/SqlObjectOperandComparisonExpander.cs:148-181 | Any other operator on objects fails with the message naming the operator when both key sequences are non-empty. It gives null when either is empty. |
| ObjectOperandComparison.PassThroughBinary | src/Shaolinq/Persistence/Linq/Optimizers/SqlObjectOperandComparisonExpander.cs:142-184 | A binary node that is not an object comparison keeps its operator, with its operands rewritten. |
| ObjectOperandComparison.ExpandObjectNullTest | src/Shaolinq/Persistence/Linq/Optimizers/SqlObjectOperandComparisonExpander.cs:97-123 | IsNull/IsNotNull on an object becomes an And-chain of the same test on each key element, in order. It gives null when there is no key. |
| ObjectOperandComparison.ExpandProjectionNullTest | src/Shaolinq/Persistence/Linq/Optimizers/SqlObjectOperandComparisonExpander.cs:124-136 | IsNull on a projection becomes NOT EXISTS of the visited projection, and IsNotNull becomes EXISTS. |
| ObjectOperandComparison.ProjectionUnchanged | src/Shaolinq/Persistence/Linq/Optimizers/SqlObjectOperandComparisonExpander.cs:26-38 | A projection whose select, projector and aggregator come back unchanged is returned as it was. |
| ObjectOperandComparison.VisitAll | src/Shaolinq/Persistence/Linq/Optimizers/SqlObjectOperandComparisonExpander.cs:139 | The base visit of a call's arguments gives one rewritten expression per argument. |
| ObjectOperandComparison.Expand | src/Shaolinq/Persistence/Linq/Optimizers/SqlObjectOperandComparisonExpander.cs:19-24 | The pass's entry point. Stated by ExpandObjectEquality, ExpandObjectOtherOperator, PassThroughBinary, ExpandObjectNullTest, ExpandProjectionNullTest, ProjectionUnchanged and PersonExample. |
| ObjectOperandComparison.Visit | src/Shaolinq/Persistence/Linq/Optimizers/SqlObjectOperandComparisonExpander.cs:26-184 | Dispatch to the handlers, with other nodes visited child by child. Its cases are stated through Expand by the lemmas on the Expand row; LeafBindingsUnchanged covers the bindings of an object construction. |
| ObjectOperandComparison.VisitBinary | src/Shaolinq/Persistence/Linq/Optimizers/SqlObjectOperandComparisonExpander.cs:142-184 | The binary handler. Stated by ExpandObjectEquality, ExpandObjectOtherOperator and PassThroughBinary. |
| ObjectOperandComparison.VisitFunctionCall | src/Shaolinq/Persistence/Linq/Optimizers/SqlObjectOperandComparisonExpander.cs:95-140 | The null-test handler. Stated by ExpandObjectNullTest and ExpandProjectionNullTest. |
| ObjectOperandComparison.VisitProjection | src/Shaolinq/Persistence/Linq/Optimizers/SqlObjectOperandComparisonExpander.cs:26-38 | The projection handler. Stated by ProjectionUnchanged. |
| ObjectOperandComparison.LeafBindingsUnchanged | src/Shaolinq/Persistence/Linq/Optimizers/SqlObjectOperandComparisonExpander.cs:152-153 | Visiting an object operand whose bindings assign only leaves gives back the same bindings, so the keys are taken from the operand as written. |
| ObjectOperandComparison.PersonExample | src/Shaolinq/Persistence/Linq/Optimizers/SqlObjectOperandComparisonExpander.cs:142-181 | Two Person constructions keyed by Id expand to the single comparison `personA.Id == personB.Id`. |
| MySqlAutoIncrementAmender.Filter | src/Shaolinq.MySql/MySqlAutoIncrementAmender.cs:37 | LINQ Where keeps at most the input's elements. |
| MySqlAutoIncrementAmender.FilterMembers | src/Shaolinq.MySql/MySqlAutoIncrementAmender.cs:37 | An element is kept exactly when it is in the input and satisfies the test. Nothing is kept exactly when no element satisfies it. |
| MySqlAutoIncrementAmender.FilterAppend | src/Shaolinq.MySql/MySqlAutoIncrementAmender.cs:37 | Filtering a concatenation is concatenating the filtered parts. |
| MySqlAutoIncrementAmender.Without | src/Shaolinq.MySql/MySqlAutoIncrementAmender.cs:37 | `Where(c => c != key)` keeps exactly the elements other than the key. |
| MySqlAutoIncrementAmender.SingleOrDefault | src/Shaolinq.MySql/MySqlAutoIncrementAmender.cs:20-28 | It fails exactly when more than one element matches. It gives none exactly when none matches, and otherwise the one match. |
| MySqlAutoIncrementAmender.AmendCreateTable | src/Shaolinq.MySql/MySqlAutoIncrementAmender.cs:18-49 | Amending keeps the table name and the column definitions. |
| MySqlAutoIncrementAmender.Amend | src/Shaolinq.MySql/MySqlAutoIncrementAmender.cs:51-56 | Visiting keeps the shape of a statement list. |
| MySqlAutoIncrementAmender.AmendAll | src/Shaolinq.MySql/MySqlAutoIncrementAmender.cs:51-56 | Visiting a list gives one statement per statement. |
| MySqlAutoIncrementAmender.NoAutoIncrementUnchanged | src/Shaolinq.MySql/MySqlAutoIncrementAmender.cs:20-24 | With no auto-increment column, the table comes back unchanged. |
| MySqlAutoIncrementAmender.TwoAutoIncrementColumnsFail | src/Shaolinq.MySql/MySqlAutoIncrementAmender.cs:20-22 | More than one auto-increment column is an error. |
| MySqlAutoIncrementAmender.TwoPrimaryKeysFail | src/Shaolinq.MySql/MySqlAutoIncrementAmender.cs:26-28 | With one auto-increment column, more than one primary-key constraint is an error. |
| MySqlAutoIncrementAmender.AlreadyInPrimaryKeyUnchanged | src/Shaolinq.MySql/MySqlAutoIncrementAmender.cs:30-32 | A column already named in the primary key leaves the table unchanged. |
| MySqlAutoIncrementAmender.OutsidePrimaryKeyRebuilt | src/Shaolinq.MySql/MySqlAutoIncrementAmender.cs:32-38 | Otherwise the constraints become: the old ones minus the key, in order; then a key on the column; then Unique(old key columns + column). |
| MySqlAutoIncrementAmender.NoPrimaryKeyReplaced | src/Shaolinq.MySql/MySqlAutoIncrementAmender.cs:40-45 | With no primary key, the whole constraint list is replaced by a single key on the column. |
| MySqlAutoIncrementAmender.SoleKeyRemoved | src/Shaolinq.MySql/MySqlAutoIncrementAmender.cs:37 | Removing the only primary-key constraint leaves no primary key. |
| MySqlAutoIncrementAmender.AmendKeysAutoIncrement | src/Shaolinq.MySql/MySqlAutoIncrementAmender.cs:32-45 | After a successful amendment, the auto-increment column is in the one and only primary-key constraint. |
| MySqlAutoIncrementAmender.SynthesisedNamesNull | src/Shaolinq.MySql/MySqlAutoIncrementAmender.cs:34-42 | Every constraint the amender adds has a null name. |
| MySqlAutoIncrementAmender.AmendIdempotent | src/Shaolinq.MySql/MySqlAutoIncrementAmender.cs:18-49 | Amending an amended table changes nothing. |
| MySqlAutoIncrementAmender.PersonTableExample | src/Shaolinq.MySql/MySqlAutoIncrementAmender.cs:32-38 | Example: key(Name) with auto-increment Id becomes key(Id), Unique(Name, Id). |
| MySqlAutoIncrementAmender.AmendTreeKeysAutoIncrement | src/Shaolinq.MySql/MySqlAutoIncrementAmender.cs:51-56 | Every CREATE TABLE node in a successfully amended tree has its auto-increment column in its only primary key. |
| MySqlAutoIncrementAmender.AmendAllKeysAutoIncrement | src/Shaolinq.MySql/MySqlAutoIncrementAmender.cs:51-56 | The same holds for every statement of an amended list. |
| SqlExpressionTypes.Position | src/Shaolinq/Persistence/Linq/Expressions/SqlExpressionType.cs:4-52 | Every member has a declaration position below the member count. |
| SqlExpressionTypes.AtPosition | src/Shaolinq/Persistence/Linq/Expressions/SqlExpressionType.cs:4-52 | A position names a member exactly when it is within the declaration. |
| SqlExpressionTypes.Ordinal | src/Shaolinq/Persistence/Linq/Expressions/SqlExpressionType.cs:6-51 | Every value lies in [8192, 8192 + count). |
| SqlExpressionTypes.FromOrdinal | src/Shaolinq/Persistence/Linq/Expressions/SqlExpressionType.cs:6-51 | An integer names a member exactly when it lies in [8192, 8192 + count). |
| SqlExpressionTypes.PositionRoundTrip | src/Shaolinq/Persistence/Linq/Expressions/SqlExpressionType.cs:4-52 | Looking up a member's position gives the member back. |
| SqlExpressionTypes.AtPositionRoundTrip | src/Shaolinq/Persistence/Linq/Expressions/SqlExpressionType.cs:4-52 | The member at a position has that position. |
| SqlExpressionTypes.OrdinalRoundTrip | src/Shaolinq/Persistence/Linq/Expressions/SqlExpressionType.cs:6-51 | Member to value to member, and value to member to value, are identities. |
| SqlExpressionTypes.ImplicitNumbering | src/Shaolinq/Persistence/Linq/Expressions/SqlExpressionType.cs:7-51 | Each member after First is numbered one more than the member declared before it. |
| SqlExpressionTypes.OrdinalInjective | src/Shaolinq/Persistence/Linq/Expressions/SqlExpressionType.cs:6-51 | Distinct members have distinct values, all greater than First's. |
| SqlExpressionTypes.NotableValues | src/Shaolinq/Persistence/Linq/Expressions/SqlExpressionType.cs:6-51 | First = 8192, Table = 8193, Projection = 8195, Where = 8197, Column = 8199, ObjectReference = 8226, Declare = 8237. |
| NumericPromotion.Rank | src/Shaolinq/Persistence/Linq/Expressions/ExpressionInterpreter.cs:321-424 | The ladder has twelve tests. |
| NumericPromotion.Promote | src/Shaolinq/Persistence/Linq/Expressions/ExpressionInterpreter.cs:321-429 | The ladder as a function of the two operand types: the first matching rule's choice, or none. Its properties are PromoteSymmetric, PromoteSelectsOperandOrWider, PromoteUIntWidens, PromoteUShortWidens, PromoteSmallTypes and PromoteUndefined. |
| NumericPromotion.FirstMatch | src/Shaolinq/Persistence/Linq/Expressions/ExpressionInterpreter.cs:321-424 | A chosen test holds for one of the operand types. |
| NumericPromotion.FirstMatchIsFirst | src/Shaolinq/Persistence/Linq/Expressions/ExpressionInterpreter.cs:321-424 | The chosen test is the first one in ladder order that holds. No test is chosen exactly when none holds. |
| NumericPromotion.LateByteRuleUnreachable | src/Shaolinq/Persistence/Linq/Expressions/ExpressionInterpreter.cs:404-424 | The second byte test is never the one chosen, because the first byte test holds whenever it does. |
| NumericPromotion.PromoteUndefined | src/Shaolinq/Persistence/Linq/Expressions/ExpressionInterpreter.cs:426-429 | No type is chosen exactly when neither operand has a ladder type. |
| NumericPromotion.PromoteSymmetric | src/Shaolinq/Persistence/Linq/Expressions/ExpressionInterpreter.cs:321-424 | Swapping the operands does not change the chosen type. |
| NumericPromotion.PromoteUIntWidens | src/Shaolinq/Persistence/Linq/Expressions/ExpressionInterpreter.cs:356-372 | uint stays uint only with uint; with a narrower or unknown type it widens to long. |
| NumericPromotion.PromoteUShortWidens | src/Shaolinq/Persistence/Linq/Expressions/ExpressionInterpreter.cs:380-396 | ushort stays ushort only with ushort; with a narrower or unknown type it widens to int. |
| NumericPromotion.PromoteSmallTypes | src/Shaolinq/Persistence/Linq/Expressions/ExpressionInterpreter.cs:404-417 | sbyte alone widens to int; byte with byte or sbyte stays byte. |
| NumericPromotion.PromoteSelectsOperandOrWider | src/Shaolinq/Persistence/Linq/Expressions/ExpressionInterpreter.cs:321-424 | The chosen type is an operand's type, or long or int. A widening to a type neither operand has needs a uint, ushort or sbyte operand. |
| ExpressionInterpreter.VisitArgs | src/Shaolinq/Persistence/Linq/Expressions/ExpressionInterpreter.cs:139-153 | Evaluated arguments give one value per argument. |
| ExpressionInterpreter.Interpret | src/Shaolinq/Persistence/Linq/Expressions/ExpressionInterpreter.cs:14-33 | The entry point: the partial result, or compiled execution on the sentinel. Stated by InterpretFallsBackOnlyOnSentinel. |
| ExpressionInterpreter.Visit | src/Shaolinq/Persistence/Linq/Expressions/ExpressionInterpreter.cs:35-63 | Dispatch by node type; other kinds give the sentinel. Stated by UndispatchedFails and ConstantEvaluates. |
| ExpressionInterpreter.VisitNew | src/Shaolinq/Persistence/Linq/Expressions/ExpressionInterpreter.cs:130-156 | A constructor call over the evaluated arguments. Stated by NewPropagatesFailure, and InterpretNew is proved equal to it. |
| ExpressionInterpreter.VisitBindings | src/Shaolinq/Persistence/Linq/Expressions/ExpressionInterpreter.cs:70-90 | Bindings applied one after another to the new object. Stated by BindingsPropagateFailure, and InterpretMemberInit is proved equal to it. |
| ExpressionInterpreter.Bind | src/Shaolinq/Persistence/Linq/Expressions/ExpressionInterpreter.cs:92-127 | One binding: a field or property assignment of the visited value, or the sentinel. Stated by BindingsPropagateFailure. |
| ExpressionInterpreter.VisitCall | src/Shaolinq/Persistence/Linq/Expressions/ExpressionInterpreter.cs:158-183 | The instance, then the arguments, then the host's invoke. Stated by CallFailedInstance and CallPropagatesFailure, and InterpretCall is proved equal to it. |
| ExpressionInterpreter.VisitConditional | src/Shaolinq/Persistence/Linq/Expressions/ExpressionInterpreter.cs:185-202 | Only the selected branch is visited. Stated by ConditionalSelectsBranch. |
| ExpressionInterpreter.VisitBinary | src/Shaolinq/Persistence/Linq/Expressions/ExpressionInterpreter.cs:204-459 | A binary node by kind, with the sentinel for other kinds. Stated by OrElseShortCircuits, AndAlsoShortCircuits, OrSemantics, EqualSemantics and ArithmeticSemantics. |
| ExpressionInterpreter.VisitEquality | src/Shaolinq/Persistence/Linq/Expressions/ExpressionInterpreter.cs:251-298 | Equal and NotEqual on a bool-typed node. Stated by EqualSemantics and EqualPropagatesFailure. |
| ExpressionInterpreter.Compare | src/Shaolinq/Persistence/Linq/Expressions/ExpressionInterpreter.cs:270-294 | The comparison of two evaluated operands. Stated by EqualSemantics and NotEqualBranchAsWritten. |
| ExpressionInterpreter.VisitArithmetic | src/Shaolinq/Persistence/Linq/Expressions/ExpressionInterpreter.cs:300-455 | Arithmetic over the type the ladder picks. Stated by ArithmeticSemantics. |
| ExpressionInterpreter.VisitMember | src/Shaolinq/Persistence/Linq/Expressions/ExpressionInterpreter.cs:461-485 | A field or property read on the evaluated target. Stated by MemberAccessFailedTarget. |
| ExpressionInterpreter.VisitUnary | src/Shaolinq/Persistence/Linq/Expressions/ExpressionInterpreter.cs:487-519 | A conversion. Stated by ConvertSemantics. |
| ExpressionInterpreter.UndispatchedFails | src/Shaolinq/Persistence/Linq/Expressions/ExpressionInterpreter.cs:35-63 | Every undispatched node kind gives the sentinel. This includes Subtract, Divide, NotEqual, And, ExclusiveOr and non-Convert unary nodes. |
| ExpressionInterpreter.InterpretFallsBackOnlyOnSentinel | src/Shaolinq/Persistence/Linq/Expressions/ExpressionInterpreter.cs:14-33 | A value is returned as it is. Only the sentinel calls the fallback, whose value or unwrapped exception is the outcome. |
| ExpressionInterpreter.ConstantEvaluates | src/Shaolinq/Persistence/Linq/Expressions/ExpressionInterpreter.cs:65-68 | A constant evaluates, and is returned, as its stored value. |
| ExpressionInterpreter.OrElseShortCircuits | src/Shaolinq/Persistence/Linq/Expressions/ExpressionInterpreter.cs:208-218 | A true left operand gives true whatever the right is. A false one gives the right's bool. A sentinel or null left operand raises the cast exceptions. |
| ExpressionInterpreter.AndAlsoShortCircuits | src/Shaolinq/Persistence/Linq/Expressions/ExpressionInterpreter.cs:219-229 | A false left operand gives false whatever the right is. A true one gives the right's bool. A sentinel operand raises InvalidCast. |
| ExpressionInterpreter.ConditionalSelectsBranch | src/Shaolinq/Persistence/Linq/Expressions/ExpressionInterpreter.cs:185-202 | Only the branch the test selects is evaluated. A failed test gives the sentinel, and a null test raises NullReference. |
| ExpressionInterpreter.EqualSemantics | src/Shaolinq/Persistence/Linq/Expressions/ExpressionInterpreter.cs:251-298 | Evaluated `==` on bool: identical references give true; same-kind short/int/long/string compare by value; two object-typed operands use default equality; otherwise the sentinel. A non-bool node gives the sentinel. |
| ExpressionInterpreter.EqualPropagatesFailure | src/Shaolinq/Persistence/Linq/Expressions/ExpressionInterpreter.cs:256-268 | The sentinel from either operand propagates, and the left operand is visited first. |
| ExpressionInterpreter.NotEqualBranchAsWritten | src/Shaolinq/Persistence/Linq/Expressions/ExpressionInterpreter.cs:270-294 | The (unreachable) NotEqual branch answers false on every value comparison. It can only answer true through default equality of two objects. |
| ExpressionInterpreter.ArithmeticSemantics | src/Shaolinq/Persistence/Linq/Expressions/ExpressionInterpreter.cs:300-455 | Add/Multiply: with no ladder type the result is the sentinel. Otherwise both operands are changed to the chosen type and the host's operator for it is applied. |
| ExpressionInterpreter.ArgsPrefixStops | src/Shaolinq/Persistence/Linq/Expressions/ExpressionInterpreter.cs:143-153 | Once a prefix of the arguments fails, the whole list fails the same way. |
| ExpressionInterpreter.ArgsEvaluateEach | src/Shaolinq/Persistence/Linq/Expressions/ExpressionInterpreter.cs:143-153 | The arguments evaluate exactly when each one does, to their individual values. |
| ExpressionInterpreter.FirstArgumentDecides | src/Shaolinq/Persistence/Linq/Expressions/ExpressionInterpreter.cs:143-153 | The first argument that does not evaluate decides the outcome of the list. |
| ExpressionInterpreter.NewPropagatesFailure | src/Shaolinq/Persistence/Linq/Expressions/ExpressionInterpreter.cs:70-77 | A failing constructor argument gives the sentinel for New and for a MemberInit built on it. |
| ExpressionInterpreter.CallPropagatesFailure | src/Shaolinq/Persistence/Linq/Expressions/ExpressionInterpreter.cs:158-183 | When an argument fails after the earlier ones succeed, a method call gives the sentinel, whether its instance is absent, succeeds or fails. |
| ExpressionInterpreter.CallFailedInstance | src/Shaolinq/Persistence/Linq/Expressions/ExpressionInterpreter.cs:158-166 | A method call whose instance fails gives the sentinel, whatever its arguments, none included. |
| ExpressionInterpreter.VisitBitwise | src/Shaolinq/Persistence/Linq/Expressions/ExpressionInterpreter.cs:230-250 | The bitwise operators: both operands changed to long, combined on 64-bit patterns and changed to the node type. Stated by OrSemantics, OrOfLongs, OrCommutes and OrOfNonNegative. |
| ExpressionInterpreter.OrSemantics | src/Shaolinq/Persistence/Linq/Expressions/ExpressionInterpreter.cs:230-236 | When both operands evaluate and change to the longs x and y, an Or node is the Or of x and y changed to the node type; when either operand gives the sentinel, the `(long)` cast throws InvalidCast. |
| ExpressionInterpreter.OrOfLongs | src/Shaolinq/Persistence/Linq/Expressions/ExpressionInterpreter.cs:230-236 | The Or of two longs is a long, and its 64-bit pattern is the bitwise or of the operands' patterns. |
| ExpressionInterpreter.OrCommutes | src/Shaolinq/Persistence/Linq/Expressions/ExpressionInterpreter.cs:230-236 | The Or of two longs does not depend on their order. |
| ExpressionInterpreter.OrOfNonNegative | src/Shaolinq/Persistence/Linq/Expressions/ExpressionInterpreter.cs:230-236 | For non-negative longs, the pattern of the Or is the bitwise or of the operands themselves. |
| ExpressionInterpreter.PatternRoundTrip | src/Shaolinq/Persistence/Linq/Expressions/ExpressionInterpreter.cs:230-236 | Reading a 64-bit pattern as a long gives a long in range whose pattern is the original one. |
| ExpressionInterpreter.BindingsPropagateFailure | src/Shaolinq/Persistence/Linq/Expressions/ExpressionInterpreter.cs:79-127 | A binding that fails, or is not an assignment, gives the sentinel for the whole initialiser whenever the bindings before it succeed on the object. |
| ExpressionInterpreter.MemberAccessFailedTarget | src/Shaolinq/Persistence/Linq/Expressions/ExpressionInterpreter.cs:461-468 | A member access whose target fails evaluates to the access node itself. |
| ExpressionInterpreter.ConvertSemantics | src/Shaolinq/Persistence/Linq/Expressions/ExpressionInterpreter.cs:487-519 | A conversion with an operator method gives the sentinel. A failed operand propagates. Null converts to null. A value goes through the operand type's converter, when that converter can reach the target type. |
| ExpressionInterpreter.EvaluateArguments | src/Shaolinq/Persistence/Linq/Expressions/ExpressionInterpreter.cs:139-153 | The array-filling loop gives what visiting the arguments in order gives. |
| ExpressionInterpreter.InterpretNew | src/Shaolinq/Persistence/Linq/Expressions/ExpressionInterpreter.cs:130-156 | The constructor handler, with its argument loop, gives what the recursive evaluation gives. |
| ExpressionInterpreter.InterpretCall | src/Shaolinq/Persistence/Linq/Expressions/ExpressionInterpreter.cs:158-183 | The method-call handler, with its argument loop, gives what the recursive evaluation gives. |
| ExpressionInterpreter.InterpretMemberInit | src/Shaolinq/Persistence/Linq/Expressions/ExpressionInterpreter.cs:70-90 | The initialiser's binding loop gives what the recursive evaluation gives. |
| RelatedObjectGatherer.TakeN | src/Shaolinq/Persistence/Linq/Optimizers/ReferencedRelatedObjectPropertyGatherer.cs:167 | LINQ Take gives a leading part of the input, clamped to its length. |
| RelatedObjectGatherer.SkipN | src/Shaolinq/Persistence/Linq/Optimizers/ReferencedRelatedObjectPropertyGatherer.cs:299 | LINQ Skip gives a trailing part of the input, clamped to its length. |
| RelatedObjectGatherer.Reverse | src/Shaolinq/Persistence/Linq/Optimizers/ReferencedRelatedObjectPropertyGatherer.cs:272 | The reversal puts element i at position n-1-i. |
| RelatedObjectGatherer.Chain | src/Shaolinq/Persistence/Linq/Optimizers/ReferencedRelatedObjectPropertyGatherer.cs:246-252 | The chain starts at the expression, and is empty exactly when that is not a property access. |
| RelatedObjectGatherer.ChainShape | src/Shaolinq/Persistence/Linq/Optimizers/ReferencedRelatedObjectPropertyGatherer.cs:246-252 | Every chain element is a property access, each later one is the target of the one before it, and the chain stops at the first target that is not a property access (the first element is the expression itself, by Chain's contract). |
| RelatedObjectGatherer.Props | src/Shaolinq/Persistence/Linq/Optimizers/ReferencedRelatedObjectPropertyGatherer.cs:279 | A chain's path has one property per access. |
| RelatedObjectGatherer.PropsIndex | src/Shaolinq/Persistence/Linq/Optimizers/ReferencedRelatedObjectPropertyGatherer.cs:279 | The k-th property of the path is that of the k-th access. |
| RelatedObjectGatherer.FirstStop | src/Shaolinq/Persistence/Linq/Optimizers/ReferencedRelatedObjectPropertyGatherer.cs:258-270 | The stop found is the first access, from the outside, declared outside data-access objects or equal to the current parent. |
| RelatedObjectGatherer.NewObject | src/Shaolinq/Persistence/Linq/Optimizers/ReferencedRelatedObjectPropertyGatherer.cs:298-302 | A new related object has the path as full path, the path minus the skipped part as included path, no targets, and as object expression the visited access at position i + skip - 1, or the root when that position is negative. It fails exactly when that position is past the visited accesses. |
| RelatedObjectGatherer.PathAt | src/Shaolinq/Persistence/Linq/Optimizers/ReferencedRelatedObjectPropertyGatherer.cs:279 | The i-th pass looks at a path one property shorter than the previous one: prefixes are visited longest first. |
| RelatedObjectGatherer.PathAtEndsAtCurrent | src/Shaolinq/Persistence/Linq/Optimizers/ReferencedRelatedObjectPropertyGatherer.cs:277-289 | The i-th path runs from the innermost access to the pass's own access, which comes last. |
| RelatedObjectGatherer.RegisterStep | src/Shaolinq/Persistence/Linq/Optimizers/ReferencedRelatedObjectPropertyGatherer.cs:279-319 | One pass of the registration loop. Stated by RegisterStepFiles and RegisterStepGrows. |
| RelatedObjectGatherer.RegisterFrom | src/Shaolinq/Persistence/Linq/Optimizers/ReferencedRelatedObjectPropertyGatherer.cs:277-320 | The registration loop from a given pass on. Stated by RegisterFromFiles, RegisterFromKeepsPaths and RegisterFromGrows. |
| RelatedObjectGatherer.Register | src/Shaolinq/Persistence/Linq/Optimizers/ReferencedRelatedObjectPropertyGatherer.cs:242-320 | The three loops of the member-access handler. Stated by RegisterFilesChain and RegisterGrows. |
| RelatedObjectGatherer.MemberAccessStep | src/Shaolinq/Persistence/Linq/Optimizers/ReferencedRelatedObjectPropertyGatherer.cs:203-322 | The member-access handler's choice of what to register. Stated by MemberAccessRegistersNothing, ProjectionAccessRegistersChain, TargetAccessRegistersChain and VisitMemberAccessGrows. |
| RelatedObjectGatherer.Walk | src/Shaolinq/Persistence/Linq/Optimizers/ReferencedRelatedObjectPropertyGatherer.cs:75-322 | The gatherer's visit of an expression. Stated by WalkGrows, WalkReduces, BinaryGrows, ConditionalGrows and WalkMemberAccess, and Gatherer.Visit is proved to agree with it. |
| RelatedObjectGatherer.WalkInclude | src/Shaolinq/Persistence/Linq/Optimizers/ReferencedRelatedObjectPropertyGatherer.cs:85-107 | An Include call up to its selector. Stated by IncludeOutsideProjectionFails, WalkIncludeReduces and WalkIncludeGrows. |
| RelatedObjectGatherer.IncludeRest | src/Shaolinq/Persistence/Linq/Optimizers/ReferencedRelatedObjectPropertyGatherer.cs:109-157 | The rest of an Include call. Stated by IncludeRestReduces, IncludeRestRecords and IncludeRestGrows. |
| RelatedObjectGatherer.PrefixFrom | src/Shaolinq/Persistence/Linq/Optimizers/ReferencedRelatedObjectPropertyGatherer.cs:121-149 | The prefix properties from the current parent down to the visited source, or an error on a field. Gatherer.PrefixProperties is proved to agree with it, with PrependEmpty and PrependStep as the loop's steps. |
| RelatedObjectGatherer.IncludedRecords | src/Shaolinq/Persistence/Linq/Optimizers/ReferencedRelatedObjectPropertyGatherer.cs:163-179 | The records one included object adds. Stated by IncludedRecordsShape. |
| RelatedObjectGatherer.Record | src/Shaolinq/Persistence/Linq/Optimizers/ReferencedRelatedObjectPropertyGatherer.cs:165-178 | The record of one pass of that loop. Stated by CardinalityOfImage and RecordsBelowStep. |
| RelatedObjectGatherer.Gather | src/Shaolinq/Persistence/Linq/Optimizers/ReferencedRelatedObjectPropertyGatherer.cs:57-73 | The pass's entry point. Stated by GatherReduces and GatherConsistent; its grouping is stated by GroupByRootPartitions. |
| RelatedObjectGatherer.WalkMemberAccess | src/Shaolinq/Persistence/Linq/Optimizers/ReferencedRelatedObjectPropertyGatherer.cs:203-322 | A member access is returned unchanged, with the state its registration leaves. |
| RelatedObjectGatherer.MemberAccessRegistersNothing | src/Shaolinq/Persistence/Linq/Optimizers/ReferencedRelatedObjectPropertyGatherer.cs:210-237 | These register nothing: a data-access-object access outside a projection, an access on a type with no descriptor, and a primary-key access. |
| RelatedObjectGatherer.RecordsBelow | src/Shaolinq/Persistence/Linq/Optimizers/ReferencedRelatedObjectPropertyGatherer.cs:165-178 | The records of the first n loop passes, all of them when n is the loop's bound. |
| RelatedObjectGatherer.RecordsBelowStep | src/Shaolinq/Persistence/Linq/Optimizers/ReferencedRelatedObjectPropertyGatherer.cs:165-178 | One more pass adds the record for that pass. |
| RelatedObjectGatherer.WalkAll | src/Shaolinq/Persistence/Linq/Optimizers/ReferencedRelatedObjectPropertyGatherer.cs:61 | Visiting a list gives one expression per expression. |
| RelatedObjectGatherer.GrowsTrans | src/Shaolinq/Persistence/Linq/Optimizers/ReferencedRelatedObjectPropertyGatherer.cs:21-24 | Growth of the gathered maps is transitive. |
| RelatedObjectGatherer.ReferenceGrows | src/Shaolinq/Persistence/Linq/Optimizers/ReferencedRelatedObjectPropertyGatherer.cs:296-316 | Filing the found object, or a new one, under its path keeps earlier result entries (the first object filed under a path is kept) and keeps the maps consistent. |
| RelatedObjectGatherer.RegisterStepGrows | src/Shaolinq/Persistence/Linq/Optimizers/ReferencedRelatedObjectPropertyGatherer.cs:279-319 | Growth part of one pass: earlier results are kept (the first object filed under a path stays), the set of root paths only grows while a root expression may be replaced by a later one, consistency is kept, and the flag, parent and nesting are untouched. What the pass files is RegisterStepFiles. |
| RelatedObjectGatherer.LookupFits | src/Shaolinq/Persistence/Linq/Optimizers/ReferencedRelatedObjectPropertyGatherer.cs:296-305 | A lookup reuses the object already filed under the path, or makes one for the path whose included path is its suffix and whose object expression is the visited access at i + skip - 1, or the root. |
| RelatedObjectGatherer.RootGrows | src/Shaolinq/Persistence/Linq/Optimizers/ReferencedRelatedObjectPropertyGatherer.cs:289-293 | Recording a root expression for a path grows the state. |
| RelatedObjectGatherer.RegisterFromGrows | src/Shaolinq/Persistence/Linq/Optimizers/ReferencedRelatedObjectPropertyGatherer.cs:277-320 | Growth part of the whole loop: earlier entries are kept, consistency is kept, and the flag, parent and nesting are untouched. What the loop files is RegisterFromFiles. |
| RelatedObjectGatherer.RegisterGrows | src/Shaolinq/Persistence/Linq/Optimizers/ReferencedRelatedObjectPropertyGatherer.cs:242-320 | Growth part of registering a chain: earlier entries are kept and consistency is kept. What gets filed is RegisterFilesChain. |
| RelatedObjectGatherer.VisitMemberAccessGrows | src/Shaolinq/Persistence/Linq/Optimizers/ReferencedRelatedObjectPropertyGatherer.cs:203-322 | Growth part of a member access: earlier entries are kept, consistency is kept, and the flag is untouched. What gets filed is ProjectionAccessRegistersChain and TargetAccessRegistersChain. |
| RelatedObjectGatherer.RegisterStepFiles | src/Shaolinq/Persistence/Linq/Optimizers/ReferencedRelatedObjectPropertyGatherer.cs:279-319 | One pass on its own access. If the access is declared outside a data-access object, the loop stops and the access is recorded as the root for the pass's path. If the lookup fails, the loop stops with that error. Otherwise the looked-up object, with the pass's target added, is filed under the path and appended to the referenced list, the roots are unchanged, and the loop goes on. |
| RelatedObjectGatherer.RegisterFromFiles | src/Shaolinq/Persistence/Linq/Optimizers/ReferencedRelatedObjectPropertyGatherer.cs:277-320 | Over a run of passes whose accesses are all declared on data-access objects, every pass's path ends up in the results. The first pass outside one records its own access as the root for its path. |
| RelatedObjectGatherer.RegisterFromKeepsPaths | src/Shaolinq/Persistence/Linq/Optimizers/ReferencedRelatedObjectPropertyGatherer.cs:296-305 | The loop never removes a path from the results. |
| RelatedObjectGatherer.RegisterFilesChain | src/Shaolinq/Persistence/Linq/Optimizers/ReferencedRelatedObjectPropertyGatherer.cs:242-320 | Registering a chain files every path from the outermost access inward, up to the first access declared outside a data-access object. That access is recorded as the root for its path. |
| RelatedObjectGatherer.ProjectionAccessRegistersChain | src/Shaolinq/Persistence/Linq/Optimizers/ReferencedRelatedObjectPropertyGatherer.cs:203-320 | A data-access-object access gathered for a projection registers its own chain this way. |
| RelatedObjectGatherer.TargetAccessRegistersChain | src/Shaolinq/Persistence/Linq/Optimizers/ReferencedRelatedObjectPropertyGatherer.cs:203-320 | Another non-key property access registers the chain of its target this way. |
| RelatedObjectGatherer.WalkGrows | src/Shaolinq/Persistence/Linq/Optimizers/ReferencedRelatedObjectPropertyGatherer.cs:26-43 | Any walk keeps every filed object (first writer wins) with targets that only grow, only adds included records and root paths (a root expression may be replaced), keeps consistency, and restores the disable-compare flag. |
| RelatedObjectGatherer.BinaryGrows | src/Shaolinq/Persistence/Linq/Optimizers/ReferencedRelatedObjectPropertyGatherer.cs:75-81 | Both operands of a binary node are walked with the flag set: the left from the state with the flag set, the right from the state the left leaves, which still has it set. The node is rebuilt from the two walked operands, the flag is restored to its prior value, and the state only grows. |
| RelatedObjectGatherer.ConditionalGrows | src/Shaolinq/Persistence/Linq/Optimizers/ReferencedRelatedObjectPropertyGatherer.cs:181-191 | The test of a conditional is walked with the flag set. Both branches are walked with the flag at its prior value: the true branch from the test's state with the flag restored, and the false branch from the state that branch leaves. The state only grows. |
| RelatedObjectGatherer.WalkAllGrows | src/Shaolinq/Persistence/Linq/Optimizers/ReferencedRelatedObjectPropertyGatherer.cs:61 | Walking a list grows the state and restores the flag. |
| RelatedObjectGatherer.WalkIncludeGrows | src/Shaolinq/Persistence/Linq/Optimizers/ReferencedRelatedObjectPropertyGatherer.cs:85-158 | An Include call grows the state and keeps the flag. |
| RelatedObjectGatherer.IncludeRestGrows | src/Shaolinq/Persistence/Linq/Optimizers/ReferencedRelatedObjectPropertyGatherer.cs:109-157 | So does the part of an Include call after its selector. |
| RelatedObjectGatherer.IncludeOutsideProjectionFails | src/Shaolinq/Persistence/Linq/Optimizers/ReferencedRelatedObjectPropertyGatherer.cs:90-93 | An Include call when not gathering for a projection is an error. |
| RelatedObjectGatherer.WalkReduces | src/Shaolinq/Persistence/Linq/Optimizers/ReferencedRelatedObjectPropertyGatherer.cs:181-201 | The walk leaves no Include call, and gives back an expression with none unchanged (a conditional is rebuilt only if a part changed). |
| RelatedObjectGatherer.WalkAllReduces | src/Shaolinq/Persistence/Linq/Optimizers/ReferencedRelatedObjectPropertyGatherer.cs:61 | The same holds for a list, element by element. |
| RelatedObjectGatherer.WalkIncludeReduces | src/Shaolinq/Persistence/Linq/Optimizers/ReferencedRelatedObjectPropertyGatherer.cs:85-158 | An Include call gives back the walked source, with no Include left. The selector is walked first, with the source as current parent, an empty referenced list and nesting one deeper. The source is then walked from that state, with the outer referenced list and parent restored when the selector referenced something. |
| RelatedObjectGatherer.IncludeRestReduces | src/Shaolinq/Persistence/Linq/Optimizers/ReferencedRelatedObjectPropertyGatherer.cs:109-157 | With nothing referenced by the selector, the rest of an Include call is exactly the walk of the source, without restoring. Otherwise the source is walked from the outer list and parent, and its expression is returned. The state it leaves changes only by added included records and a nesting one lower. |
| RelatedObjectGatherer.IncludeRestRecords | src/Shaolinq/Persistence/Linq/Optimizers/ReferencedRelatedObjectPropertyGatherer.cs:121-152 | When the rest of an Include succeeds, the source walk succeeds, and the records added are those of the first referenced object: rooted at the source parameter with the reversed member-access prefix when nesting exceeds one and the walked expression is a member access other than the parameter, and otherwise rooted at the walked expression with an empty prefix. |
| RelatedObjectGatherer.IncludedRecordsShape | src/Shaolinq/Persistence/Linq/Optimizers/ReferencedRelatedObjectPropertyGatherer.cs:163-179 | There is at most one record per pass. Each is rooted at the root, has a leading part of the full path, and has the prefix followed by a leading part of the included path. The first record keeps both paths whole. |
| RelatedObjectGatherer.CardinalityOfImage | src/Shaolinq/Persistence/Linq/Optimizers/ReferencedRelatedObjectPropertyGatherer.cs:165-178 | n passes add at most n records (duplicates collapse). |
| RelatedObjectGatherer.GroupByRootPartitions | src/Shaolinq/Persistence/Linq/Optimizers/ReferencedRelatedObjectPropertyGatherer.cs:68-71 | Grouping puts every record under its own root, and every group is non-empty and holds only that root's records. |
| RelatedObjectGatherer.GatherReduces | src/Shaolinq/Persistence/Linq/Optimizers/ReferencedRelatedObjectPropertyGatherer.cs:57-73 | Gather reduces the expressions one for one, leaving no Include call, and leaves Include-free input as it is. |
| RelatedObjectGatherer.GatherConsistent | src/Shaolinq/Persistence/Linq/Optimizers/ReferencedRelatedObjectPropertyGatherer.cs:57-73 | Every gathered object is filed under its own full path, and its included path is a suffix of it. |
| RelatedObjectGatherer.PrependEmpty | src/Shaolinq/Persistence/Linq/Optimizers/ReferencedRelatedObjectPropertyGatherer.cs:125-146 | The prefix loop starts with nothing collected. |
| RelatedObjectGatherer.PrependStep | src/Shaolinq/Persistence/Linq/Optimizers/ReferencedRelatedObjectPropertyGatherer.cs:125-146 | Collecting one more prefix property is prepending it to the rest of the walk. |
| RelatedObjectGatherer.Gatherer.constructor | src/Shaolinq/Persistence/Linq/Optimizers/ReferencedRelatedObjectPropertyGatherer.cs:50-55 | A new gatherer holds its model, source and mode, with empty maps, no parent, nesting 0 and the flag off. |
| RelatedObjectGatherer.Gatherer.Visit | src/Shaolinq/Persistence/Linq/Optimizers/ReferencedRelatedObjectPropertyGatherer.cs:75-81 | The visitor's result and new fields are exactly those of Walk. |
| RelatedObjectGatherer.Gatherer.VisitAll | src/Shaolinq/Persistence/Linq/Optimizers/ReferencedRelatedObjectPropertyGatherer.cs:61 | Visiting in order agrees with WalkAll. |
| RelatedObjectGatherer.Gatherer.VisitInclude | src/Shaolinq/Persistence/Linq/Optimizers/ReferencedRelatedObjectPropertyGatherer.cs:85-107 | The Include handler (save, reset, visit selector) agrees with WalkInclude. |
| RelatedObjectGatherer.Gatherer.FinishInclude | src/Shaolinq/Persistence/Linq/Optimizers/ReferencedRelatedObjectPropertyGatherer.cs:109-157 | The rest of the handler (restore, visit source, add records) agrees with IncludeRest. |
| RelatedObjectGatherer.Gatherer.PrefixProperties | src/Shaolinq/Persistence/Linq/Optimizers/ReferencedRelatedObjectPropertyGatherer.cs:125-144 | The prefix while-loop collects exactly the path PrefixFrom describes, or fails on a field. |
| RelatedObjectGatherer.Gatherer.AddIncludedProperty | src/Shaolinq/Persistence/Linq/Optimizers/ReferencedRelatedObjectPropertyGatherer.cs:163-179 | The loop adds exactly the records IncludedRecords describes, and changes nothing else. |
| RelatedObjectGatherer.Gatherer.VisitMemberAccess | src/Shaolinq/Persistence/Linq/Optimizers/ReferencedRelatedObjectPropertyGatherer.cs:203-240 | It returns the access itself, with the state MemberAccessStep gives, or that step's error. |
| RelatedObjectGatherer.Gatherer.RegisterAccess | src/Shaolinq/Persistence/Linq/Optimizers/ReferencedRelatedObjectPropertyGatherer.cs:242-322 | The three loops agree with Register. |
| RelatedObjectGatherer.Gatherer.CollectChain | src/Shaolinq/Persistence/Linq/Optimizers/ReferencedRelatedObjectPropertyGatherer.cs:246-252 | The first loop collects the chain and its root. |
| RelatedObjectGatherer.Gatherer.FindIncludedPathStart | src/Shaolinq/Persistence/Linq/Optimizers/ReferencedRelatedObjectPropertyGatherer.cs:254-270 | The second loop finds the included-path skip and the root at the first stop. |
| RelatedObjectGatherer.Gatherer.RegisterChain | src/Shaolinq/Persistence/Linq/Optimizers/ReferencedRelatedObjectPropertyGatherer.cs:272-320 | The third loop agrees with RegisterFrom over the reversed chain. |
| RelatedObjectGatherer.Gatherer.FindOrCreate | src/Shaolinq/Persistence/Linq/Optimizers/ReferencedRelatedObjectPropertyGatherer.cs:296-305 | The lookup agrees with Lookup: it finds the filed object or makes a new one. |
| RelatedObjectGatherer.Gatherer.RegisterPath | src/Shaolinq/Persistence/Linq/Optimizers/ReferencedRelatedObjectPropertyGatherer.cs:279-319 | One pass of the third loop agrees with RegisterStep. |
| RelatedObjectGatherer.GatherExpressions | src/Shaolinq/Persistence/Linq/Optimizers/ReferencedRelatedObjectPropertyGatherer.cs:57-73 | Gather with one gatherer object agrees with the pure Gather. |
| SqlServerFormatter.ResolveSqlFunctionAsWritten | src/Shaolinq.SqlServer/SqlServerSqlQueryFormatter.cs:17-33 | ServerUtcNow resolves to SYSDATETIME and ServerNow to SYSUTCDATETIME, arguments unchanged. DateTimeAddTimeSpan resolves to DATEADD("SECOND", arg1, arg0), failing with fewer than two arguments. Other functions go to the base. |
| SqlServerFormatter.NowFunctionsSwapped | src/Shaolinq.SqlServer/SqlServerSqlQueryFormatter.cs:24-27 | As written, ServerUtcNow reads the local clock and ServerNow the UTC clock: the opposite of their names. |
| SqlServerFormatter.ResolveSqlFunction | src/Shaolinq.SqlServer/SqlServerSqlQueryFormatter.cs:17-33 | Corrected resolver: the now functions keep their arguments and parentheses. Everything else is as written. |
| SqlServerFormatter.ResolveNowReadsIntendedClock | src/Shaolinq.SqlServer/SqlServerSqlQueryFormatter.cs:24-27 | In the corrected resolver, each now function reads the clock its name promises. |
| SqlServerFormatter.DateAddArguments | src/Shaolinq.SqlServer/SqlServerSqlQueryFormatter.cs:28-29 | DATEADD takes the unit "SECOND", then the span (argument 1), then the date (argument 0). Fewer than two arguments is an index error. |
| SqlServerFormatter.BooleanConstantMeaning | src/Shaolinq.SqlServer/SqlServerSqlQueryFormatter.cs:36-67 | A bool constant is written as a comparison of 1 with 1 that holds exactly when the constant is true. Other constants, null included, are the base's. |
| SqlServerFormatter.OrderingTexts | src/Shaolinq.SqlServer/SqlServerSqlQueryFormatter.cs:114-124 | Each ORDER BY item is written as itself followed by ` DESC` when descending. |
| SqlServerFormatter.TopWrittenExactly | src/Shaolinq.SqlServer/SqlServerSqlQueryFormatter.cs:78-86 | `TOP(n) ` is written exactly when Take is set and Skip is not, and holds the rendered Take. |
| SqlServerFormatter.ActionTextOverridesRestrictOnly | src/Shaolinq.SqlServer/SqlServerSqlQueryFormatter.cs:96-106 | Restrict is written as NO ACTION; every other action as the base writes it. |
| SqlServerFormatter.OutputColumns | src/Shaolinq.SqlServer/SqlServerSqlQueryFormatter.cs:140-147 | There is one quoted `INSERTED`.`col` item per returning column, in list order. |
| SqlServerFormatter.OutputClauseLists | src/Shaolinq.SqlServer/SqlServerSqlQueryFormatter.cs:131-149 | The clause is empty exactly when the list is null or empty. Otherwise it is ` OUTPUT ` followed by the column items, and splitting at commas gives them back. |
| SqlServerFormatter.IdentityInsertText | src/Shaolinq.SqlServer/SqlServerSqlQueryFormatter.cs:151-184 | IdentityInsert on a table writes `SET IDENTITY_INSERT <table> ON` or `OFF` from its bool argument, then a new line. |
| SqlServerFormatter.OtherSetCommandText | src/Shaolinq.SqlServer/SqlServerSqlQueryFormatter.cs:151-184 | Any other parameter is written verbatim after SET, followed by its arguments. |
| SqlServerFormatter.SetCommandFails | src/Shaolinq.SqlServer/SqlServerSqlQueryFormatter.cs:164-174 | A SET command fails exactly when its target is not a table, or when IdentityInsert lacks a bool constant first argument. The text always starts with `SET ` and the keyword. |
| SqlServerFormatter.PreProcess | src/Shaolinq.SqlServer/SqlServerSqlQueryFormatter.cs:70-76 | When the limit amender and the boolean normalizer leave a tree alone, pre-processing is the base's own pass. |
| SqlServerFormatter.ConstantText | src/Shaolinq.SqlServer/SqlServerSqlQueryFormatter.cs:36-67 | The text written for a constant. Stated by BooleanConstantMeaning, and Formatter.VisitConstant is proved to write it. |
| SqlServerFormatter.VisitText | src/Shaolinq.SqlServer/SqlServerSqlQueryFormatter.cs:36-68 | The text written for a visited node. Formatter.Visit is proved to write it. |
| SqlServerFormatter.TopText | src/Shaolinq.SqlServer/SqlServerSqlQueryFormatter.cs:78-86 | The TOP clause. Stated by TopWrittenExactly, and Formatter.AppendTop is proved to write it. |
| SqlServerFormatter.ActionText | src/Shaolinq.SqlServer/SqlServerSqlQueryFormatter.cs:96-106 | The text of a referential action. Stated by ActionTextOverridesRestrictOnly, and Formatter.WriteAction is proved to write it. |
| SqlServerFormatter.OutputClause | src/Shaolinq.SqlServer/SqlServerSqlQueryFormatter.cs:131-149 | The OUTPUT clause of an insert. Stated by OutputClauseLists, and Formatter.WriteInsertIntoReturning is proved to write it. |
| SqlServerFormatter.OverText | src/Shaolinq.SqlServer/SqlServerSqlQueryFormatter.cs:108-129 | The OVER clause. Formatter.VisitOver is proved to write it. |
| SqlServerFormatter.SetCommandText | src/Shaolinq.SqlServer/SqlServerSqlQueryFormatter.cs:151-184 | The text of a SET command, or its error. Stated by IdentityInsertText, OtherSetCommandText and SetCommandFails, and Formatter.VisitSetCommand is proved to write it. |
| SqlServerFormatter.Formatter.constructor | src/Shaolinq.SqlServer/SqlServerSqlQueryFormatter.cs:12-15 | A new formatter has an empty buffer. |
| SqlServerFormatter.Formatter.Write | src/Shaolinq.SqlServer/SqlServerSqlQueryFormatter.cs:82-84 | Write appends its text to the buffer. |
| SqlServerFormatter.Formatter.Visit | src/Shaolinq.SqlServer/SqlServerSqlQueryFormatter.cs:36-68 | Visiting returns the node and appends VisitText. |
| SqlServerFormatter.Formatter.VisitConstant | src/Shaolinq.SqlServer/SqlServerSqlQueryFormatter.cs:36-68 | It returns the constant node and appends ConstantText. |
| SqlServerFormatter.Formatter.AppendTop | src/Shaolinq.SqlServer/SqlServerSqlQueryFormatter.cs:78-86 | It appends TopText. |
| SqlServerFormatter.Formatter.AppendLimit | src/Shaolinq.SqlServer/SqlServerSqlQueryFormatter.cs:88-94 | It fails with "Skip/Take not supported" exactly when both Skip and Take are set, and writes nothing. |
| SqlServerFormatter.Formatter.WriteAction | src/Shaolinq.SqlServer/SqlServerSqlQueryFormatter.cs:96-106 | It appends ActionText. |
| SqlServerFormatter.Formatter.WriteDelimited | src/Shaolinq.SqlServer/SqlServerSqlQueryFormatter.cs:140-147 | The list-writing loop appends the items joined by the delimiter. |
| SqlServerFormatter.Formatter.WriteInsertIntoReturning | src/Shaolinq.SqlServer/SqlServerSqlQueryFormatter.cs:131-149 | It appends OutputClause. |
| SqlServerFormatter.Formatter.VisitOver | src/Shaolinq.SqlServer/SqlServerSqlQueryFormatter.cs:108-129 | It returns the node and appends the source, ` OVER (ORDER BY `, the delimited ordering items and `)`. |
| SqlServerFormatter.Formatter.WriteSetTarget | src/Shaolinq.SqlServer/SqlServerSqlQueryFormatter.cs:164-169 | It appends ` <table> ` for a table target and nothing for none. A non-table target fails the cast. |
| SqlServerFormatter.Formatter.WriteSetValue | src/Shaolinq.SqlServer/SqlServerSqlQueryFormatter.cs:171-178 | It appends ON/OFF for IdentityInsert, or the arguments, and reports the failing cast. |
| SqlServerFormatter.Formatter.VisitSetCommand | src/Shaolinq.SqlServer/SqlServerSqlQueryFormatter.cs:151-184 | It appends SetCommandText and returns the command, or the error at which the text stops. |
| ColumnInfos.PrefixNames | src/Shaolinq/Persistence/ColumnInfo.cs:58 | The persisted prefix name of each visited property, in order. |
| ColumnInfos.PropertyNames | src/Shaolinq/Persistence/ColumnInfo.cs:67 | The property name of each visited property, in order. |
| ColumnInfos.ColumnNameOf | src/Shaolinq/Persistence/ColumnInfo.cs:52-60 | The column name. Stated by ColumnNameParts, and ColumnInfo.GetColumnName is proved to return it. |
| ColumnInfos.TailColumnNameOf | src/Shaolinq/Persistence/ColumnInfo.cs:21-43 | The tail column name, or its error. Stated by TailOfColumnName, and ColumnInfo.GetTailColumnName is proved to return it. |
| ColumnInfos.FullParentNameOf | src/Shaolinq/Persistence/ColumnInfo.cs:65-68 | The dotted parent name. Stated by FullPropertyNameExtendsParent, and ColumnInfo.GetFullParentName is proved to return it. |
| ColumnInfos.FullPropertyNameOf | src/Shaolinq/Persistence/ColumnInfo.cs:70-73 | The dotted full property name. Stated by FullPropertyNameExtendsParent, and ColumnInfo.GetFullPropertyName is proved to return it. |
| ColumnInfos.ColumnNameParts | src/Shaolinq/Persistence/ColumnInfo.cs:52-60 | With no visited property the name is PersistedName. With one, it is that property's prefix then PersistedShortName. With more, it is the visited prefixes in order (split anywhere), then PersistedShortName. |
| ColumnInfos.TailOfColumnName | src/Shaolinq/Persistence/ColumnInfo.cs:21-43 | The tail name fails exactly when nothing was visited. Through one property it is PersistedName. Through two or more, the first prefix followed by the tail is the column name. |
| ColumnInfos.FullPropertyNameExtendsParent | src/Shaolinq/Persistence/ColumnInfo.cs:65-73 | The full property name is the full parent name, a dot and the property name (just the name at the root). |
| ColumnInfos.ColumnInfo.constructor | src/Shaolinq/Persistence/ColumnInfo.cs:8-17 | A new column info holds its properties with every cache empty. |
| ColumnInfos.ColumnInfo.GetColumnName | src/Shaolinq/Persistence/ColumnInfo.cs:45-63 | It returns the column name and caches it, touching no other field. |
| ColumnInfos.ColumnInfo.GetTailColumnName | src/Shaolinq/Persistence/ColumnInfo.cs:21-43 | It returns the tail name or the error, caching only a name. |
| ColumnInfos.ColumnInfo.GetFullParentName | src/Shaolinq/Persistence/ColumnInfo.cs:65-68 | It returns the dot-joined visited names, and caches them. |
| ColumnInfos.ColumnInfo.GetFullPropertyName | src/Shaolinq/Persistence/ColumnInfo.cs:70-73 | It returns the dot-joined names including the definition's, and caches them. |
| ColumnInfos.ColumnInfo.ToString | src/Shaolinq/Persistence/ColumnInfo.cs:75-78 | ToString is the column name. |
| ColumnInfos.GettersAreIdempotent | src/Shaolinq/Persistence/ColumnInfo.cs:19-78 | Calling every getter twice gives the same answers, and ToString equals the column name. |
| CreateIndexExpressions.NodeType | src/Shaolinq/Persistence/Linq/Expressions/SqlCreateIndexExpression.cs:17 | The node type is always CreateIndex (8214). |
| CreateIndexExpressions.NewCreateIndex | src/Shaolinq/Persistence/Linq/Expressions/SqlCreateIndexExpression.cs:24-33 | The full constructor stores every argument as given. |
| CreateIndexExpressions.NewCreateIndexFromColumns | src/Shaolinq/Persistence/Linq/Expressions/SqlCreateIndexExpression.cs:19-22 | The column-sequence constructor is the full one with no filter and no clustered flag. |
| CreateIndexExpressions.ChangeWhere | src/Shaolinq/Persistence/Linq/Expressions/SqlCreateIndexExpression.cs:35-43 | The same filter gives the same node. Another filter gives a node equal in everything else, except that Clustered is dropped. |
| CreateIndexExpressions.ChangeWhereIdempotent | src/Shaolinq/Persistence/Linq/Expressions/SqlCreateIndexExpression.cs:35-43 | Changing to the same filter twice is changing it once. |
| CreateIndexExpressions.ChangeWhereRoundTrip | src/Shaolinq/Persistence/Linq/Expressions/SqlCreateIndexExpression.cs:35-43 | Changing the filter and back restores the node exactly when the filter was the same or Clustered was unset. |
| AggregateSubqueryFinders.Subterms | src/Shaolinq/Persistence/Linq/Optimizers/SqlAggregateSubqueryFinder.cs:26 | The visit order starts at the node itself. |
| AggregateSubqueryFinders.Aggregates | src/Shaolinq/Persistence/Linq/Optimizers/SqlAggregateSubqueryFinder.cs:22-36 | The aggregate sub-queries of a tree in visit order. Stated by AggregatesInVisitOrder and FoundAreTheAggregates, and AggregateSubqueryFinder.Find is proved to collect them. |
| AggregateSubqueryFinders.KeepAggregates | src/Shaolinq/Persistence/Linq/Optimizers/SqlAggregateSubqueryFinder.cs:31-36 | What is kept are aggregate sub-queries of the input. |
| AggregateSubqueryFinders.KeepAggregatesAppend | src/Shaolinq/Persistence/Linq/Optimizers/SqlAggregateSubqueryFinder.cs:31-36 | Keeping distributes over concatenation. |
| AggregateSubqueryFinders.AggregatesInVisitOrder | src/Shaolinq/Persistence/Linq/Optimizers/SqlAggregateSubqueryFinder.cs:22-36 | What the finder records is the aggregate sub-queries of the tree in visit order (node before children). |
| AggregateSubqueryFinders.AggregatesOfInVisitOrder | src/Shaolinq/Persistence/Linq/Optimizers/SqlAggregateSubqueryFinder.cs:22-36 | The same holds for a list of children. |
| AggregateSubqueryFinders.FoundAreTheAggregates | src/Shaolinq/Persistence/Linq/Optimizers/SqlAggregateSubqueryFinder.cs:22-36 | Everything found is an aggregate in the tree; nothing is found exactly when the tree has none; an aggregate root comes first. |
| AggregateSubqueryFinders.NoneKept | src/Shaolinq/Persistence/Linq/Optimizers/SqlAggregateSubqueryFinder.cs:31-36 | When nothing is kept, no listed node is an aggregate sub-query. |
| AggregateSubqueryFinders.AggregatesOfSnoc | src/Shaolinq/Persistence/Linq/Optimizers/SqlAggregateSubqueryFinder.cs:33-35 | Visiting one more child appends what that child gives. |
| AggregateSubqueryFinders.AggregatesOfAppend | src/Shaolinq/Persistence/Linq/Optimizers/SqlAggregateSubqueryFinder.cs:33-35 | Visiting two runs of children appends their findings. |
| AggregateSubqueryFinders.AggregateSubqueryFinder.constructor | src/Shaolinq/Persistence/Linq/Optimizers/SqlAggregateSubqueryFinder.cs:17-20 | A new finder has an empty list. |
| AggregateSubqueryFinders.AggregateSubqueryFinder.Visit | src/Shaolinq/Persistence/Linq/Optimizers/SqlAggregateSubqueryFinder.cs:26 | The visit returns the node unchanged and appends Aggregates of it. |
| AggregateSubqueryFinders.AggregateSubqueryFinder.VisitAggregateSubquery | src/Shaolinq/Persistence/Linq/Optimizers/SqlAggregateSubqueryFinder.cs:31-36 | It records the aggregate, then descends into it, so nested aggregates follow it. |
| AggregateSubqueryFinders.AggregateSubqueryFinder.VisitChildren | src/Shaolinq/Persistence/Linq/Optimizers/SqlAggregateSubqueryFinder.cs:33-35 | The base visit over the children appends their findings in order. |
| AggregateSubqueryFinders.AggregateSubqueryFinder.Find | src/Shaolinq/Persistence/Linq/Optimizers/SqlAggregateSubqueryFinder.cs:22-29 | A fresh finder returns exactly Aggregates of the tree. |
| AsyncRewriterArguments.RewriteArguments | src/Shaolinq.AsyncRewriter/Program.cs:7-41 | The argument loop makes the Rewrite call that Parse describes (with `!alwayswrite`), or stops with Parse's error. |
| AsyncRewriterArguments.Parse | src/Shaolinq.AsyncRewriter/Program.cs:14-29 | The argument loop over the whole command line. Stated by TrailingOptionFails, CommandLine and ParseAnyCommandLine. |
| AsyncRewriterArguments.ParseFrom | src/Shaolinq.AsyncRewriter/Program.cs:14-29 | The argument loop from a given token on. Stated by ParseOptions. |
| AsyncRewriterArguments.ApplySnoc | src/Shaolinq.AsyncRewriter/Program.cs:14-29 | Options take effect one after another. |
| AsyncRewriterArguments.ApplyLastWins | src/Shaolinq.AsyncRewriter/Program.cs:18-29 | The last -output and -assemblies win, each split on ';'. -alwayswrite anywhere sets the flag. |
| AsyncRewriterArguments.ParseOptions | src/Shaolinq.AsyncRewriter/Program.cs:14-29 | Reading options, then the rest, is reading the rest from what the options set. |
| AsyncRewriterArguments.CommandLine | src/Shaolinq.AsyncRewriter/Program.cs:14-40 | Options then a non-option: the input is that argument and everything after it, option-like or not. With nothing after the options, the input stays null. |
| AsyncRewriterArguments.TrailingOptionFails | src/Shaolinq.AsyncRewriter/Program.cs:18-25 | -output or -assemblies as the last argument reads past the end. |
| AsyncRewriterArguments.FirstOpt | src/Shaolinq.AsyncRewriter/Program.cs:18-29 | An option at the front of the line is written as the arguments it consumes. |
| AsyncRewriterArguments.TokensCons | src/Shaolinq.AsyncRewriter/Program.cs:14-29 | One option then more options is the options' arguments in order. |
| AsyncRewriterArguments.SplitCommandLine | src/Shaolinq.AsyncRewriter/Program.cs:14-38 | Every command line is a list of options followed by nothing, a non-option, or a value option missing its value. |
| AsyncRewriterArguments.ParseAnyCommandLine | src/Shaolinq.AsyncRewriter/Program.cs:14-40 | Any command line parses to the trailing-option error, or to the last values, the flag and the input after the options. |
| Strings.Join | src/Shaolinq/Persistence/ColumnInfo.cs:67 | `string.Join`: the items with the separator between neighbours; one item is itself and no items is empty. Stated by JoinSnoc and SplitJoin. |
| Strings.JoinSnoc | src/Shaolinq/Persistence/ColumnInfo.cs:72 | Joining one more item appends the separator and the item. |
| Strings.Split | src/Shaolinq.AsyncRewriter/Program.cs:20 | `String.Split(char)`: the string cut at every delimiter, always at least one piece. Stated by SplitNoDelimiter, SplitFirst and SplitJoin. |
| Strings.SplitNoDelimiter | src/Shaolinq.AsyncRewriter/Program.cs:20 | A string with no delimiter splits into itself alone. |
| Strings.SplitFirst | src/Shaolinq.AsyncRewriter/Program.cs:20 | Splitting cuts at the first delimiter and splits the rest. |
| Strings.SplitJoin | src/Shaolinq.AsyncRewriter/Program.cs:20 | Splitting a one-character-delimited join, whose items hold no delimiter, gives back the items. |
| Strings.Concat | src/Shaolinq/Persistence/ColumnInfo.cs:58 | `string.Concat`: the items one after the other. Stated by ConcatAppend. |
| Strings.ConcatAppend | src/Shaolinq/Persistence/ColumnInfo.cs:58 | Concatenating two lists put together is concatenating each and appending. |

## Left out

- Reflection, `Activator.CreateInstance`, `Convert.ChangeType`, `TypeDescriptor` converters, `BinaryOperations` and `ExpressionFastCompiler.CompileAndRun` are modelled as functions of a `Host` record. Their own behaviour is not modelled, and neither is decimal, double or float arithmetic.
- The base visitors (`SqlExpressionVisitor`, `Sql92QueryFormatter`) are not part of this model. The formatter's base writer is the `BaseWriter` record. The expander's base visitor is a structural visit of the children. `SqlServerLimitAmmender`, `SqlServerBooleanNormalizer` and `QueryBinder.StripQuotes` are not modelled either.
- The type-mapping layer (`TypeDescriptorProvider`, `IsDataAccessObjectType`, `IsPropertyPrimaryKey`, `GetBindingsFlattened`) is given as abstract predicates or as data already carried by the nodes.
- `ExpressionReplacer.Replace` is not modelled: an `Include` node carries its selector body already rebound to its source.
- Node identity (reference equality of expressions) is structural equality throughout. `ChangeWhere`'s reference test becomes equality of the filter conditions.
- `StripAddToCollectionCalls` is taken as the identity.
- `Rewriter.Rewrite` is an external tool. The model stops at the call it would receive.
- `DataAccessScope`, `ForeignKeyColumnInfo` and the test data models have no behaviour of the core.
- ColumnInfos.ColumnInfo: a .NET struct is copied on assignment, so a cache filled on a copy is lost. The model is a class, and does not model copying. The setters are not modelled: setting `VisitedProperties` after a getter would leave a stale cache in the source.
- SqlServerFormatter.Formatter.VisitOver: the order-by list holds orderings by type, so the source's cast to `SqlOrderByExpression` cannot fail here.
- SqlServerFormatter.PreProcess: the ordering of the three passes is its definition. The contract only states that the base pass comes last.
- RelatedObjectGatherer.Gatherer: the target-expression lists are sets, and `ReferencedRelatedObject` instances are shared through the path-keyed `results` map rather than by reference.
- Static member accesses (with no target expression) are not modelled by the gatherer.
- The interpreter's `(bool)` casts raise InvalidCast or NullReference on the sentinel or on null. So OrElse, AndAlso and a conditional test throw instead of returning the sentinel. In the same way, the `(long)` casts of Or throw InvalidCast when an operand gives the sentinel; there is no fallback to compiled execution.
- The expander's `Zip` silently truncates key sequences of different lengths. No count mismatch is rejected.
- The ladder maps sbyte to int, and it has a second byte test that can never be reached.
- NotEqual is not dispatched at the top level, so its branch in the binary handler is dead.
- The top-level handler unwraps one TargetInvocation level.
- The gatherer keeps the disable-compare flag, and saves and restores it, but nothing in the file reads it.
- ExpressionInterpreter.OrOfLongs: the Or is stated through the 64-bit pattern of its result. That a long in range is the only long with its pattern (the round trip from integer to 64-bit pattern and back) is not proved, because the solver cannot close it within the resource limit.
- RelatedObjectGatherer.RegisterStepGrows: states only the growth of the maps and the untouched control fields. What one pass files is stated separately, by RegisterStepFiles.
- RelatedObjectGatherer.RegisterFromGrows: states only growth. What the loop files is stated by RegisterFromFiles, for the run of passes up to the first access outside a data-access object.
- RelatedObjectGatherer.RegisterGrows: states only growth. What a chain files is stated by RegisterFilesChain.
- RelatedObjectGatherer.VisitMemberAccessGrows: states only growth. What a member access files is stated by ProjectionAccessRegistersChain and TargetAccessRegistersChain. For a chain, these name the paths filed and the root recorded, not the full contents of each filed object.

## Findings

| source | as written | input that shows it | evidently intended | confidence | as-written member | corrected member |
|---|---|---|---|---|---|---|
| src/Shaolinq.SqlServer/SqlServerSqlQueryFormatter.cs:24-27 | ServerUtcNow resolves to SYSDATETIME (the server's local time), and ServerNow to SYSUTCDATETIME (UTC) | any ServerUtcNow call, e.g. `ServerUtcNow()` with no arguments | ServerUtcNow gives SYSUTCDATETIME and ServerNow gives SYSDATETIME | medium, not executed | SqlServerFormatter.NowFunctionsSwapped | SqlServerFormatter.ResolveNowReadsIntendedClock |
