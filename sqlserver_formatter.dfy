/**
  The SQL Server dialect of the query formatter: the pieces of SQL text that
  differ from the ANSI-like base formatter (function names, TOP paging, boolean
  literals, the OUTPUT clause, SET commands, OVER clauses), written to an
  append-only text buffer, plus the pure function-name resolver.

  What the base formatter does for the nodes this dialect does not override is
  not part of this model: it is carried as a value of `BaseWriter`, a record of
  total functions giving the text the base writes for each of them.
*/
module SqlServerFormatter {
  import opened Wrappers
  import opened Strings

  // ---------------------------------------------------------------------------
  // The nodes the dialect looks at
  // ---------------------------------------------------------------------------

  /** The value held by a constant node; `NullV` is a constant whose value is null. */
  datatype ConstValue = NullV | BoolV(b: bool) | IntV(i: int) | StringV(s: string) | OtherV(text: string)

  datatype CompareOp = Equal | NotEqual

  datatype OrderType = Ascending | Descending

  /** An ORDER BY item of an OVER clause. */
  datatype Ordering = Ordering(expr: SqlExpr, orderType: OrderType)

  /** The expressions the formatter visits; every other kind is `Opaque` to this model. */
  datatype SqlExpr =
    | Constant(value: ConstValue)
    | Compare(op: CompareOp, left: SqlExpr, right: SqlExpr)
    | Over(source: SqlExpr, orderBy: seq<Ordering>)
    | Table(name: string)
    | Opaque(tag: string)

  /** The paging part of a SELECT node. */
  datatype Select = Select(take: Option<SqlExpr>, skip: Option<SqlExpr>)

  datatype ReferenceAction = NoAction | Restrict | Cascade | SetNull | SetDefault

  /** A SET command: the configuration parameter, an optional target table and the arguments. */
  datatype SetCommand = SetCommand(parameter: string, target: Option<SqlExpr>, arguments: seq<SqlExpr>)

  /** The portable function vocabulary, as far as this dialect tells its members apart. */
  datatype SqlFunction = ServerUtcNow | ServerNow | DateTimeAddTimeSpan | OtherFunction(name: string)

  /** A resolved function call: the native name, whether it is written without parentheses, its arguments. */
  datatype Resolution = Resolution(name: string, excludeParens: bool, arguments: seq<SqlExpr>)

  /** The exceptions the dialect's own code can raise. */
  datatype FormatError =
    | SkipTakeNotSupported      // InvalidOperationException("Skip/Take not supported")
    | IndexOutOfRange           // a missing argument
    | InvalidCast               // a node or value of another kind than the cast expects
    | NullReference             // unboxing a null constant

  /** The text a dialect operation wrote, and the exception it ended with, if any. */
  datatype Emitted = Emitted(written: string, error: Option<FormatError>)

  /** What the base formatter does for the nodes and calls the dialect leaves to it. */
  datatype BaseWriter = BaseWriter(
    visit: SqlExpr -> string,                  // the base rendering of a node
    visitConstant: ConstValue -> string,       // the base rendering of a constant
    visitOrdering: Ordering -> string,         // the base rendering of an ORDER BY item
    quote: string -> string,                   // WriteQuotedIdentifier
    action: ReferenceAction -> string,         // the base Write(SqlColumnReferenceAction)
    writeList: seq<SqlExpr> -> string,         // the base Write of an argument list
    listDelimiter: string,                     // the default delimiter of a written list
    newLine: string,                           // WriteLine
    resolve: (SqlFunction, seq<SqlExpr>) -> Resolution,
    amendLimit: SqlExpr -> SqlExpr,            // SqlServerLimitAmmender
    normalizeBooleans: SqlExpr -> SqlExpr,     // SqlServerBooleanNormalizer
    preProcess: SqlExpr -> SqlExpr)            // the base PreProcess

  // ---------------------------------------------------------------------------
  // Function resolution
  // ---------------------------------------------------------------------------

  /** Which clock a native SQL Server date function reads, as SQL Server documents them. */
  datatype Clock = LocalClock | UtcClock

  function NativeClock(name: string): Option<Clock>
  {
    if name == "SYSDATETIME" then Some(LocalClock)
    else if name == "SYSUTCDATETIME" then Some(UtcClock)
    else None
  }

  /** The clock a portable "now" function is named after. */
  function IntendedClock(f: SqlFunction): Option<Clock>
  {
    match f
    case ServerUtcNow => Some(UtcClock)
    case ServerNow => Some(LocalClock)
    case _ => None
  }

  /** The positions of the portable time-interval addition's arguments. */
  const DateArgument := 0
  const SpanArgument := 1

  /**
    The resolver as written: the two "now" functions keep their arguments, the
    interval addition becomes DATEADD with the unit SECOND and its two arguments
    swapped, and everything else is the base resolver's.
  */
  function ResolveSqlFunctionAsWritten(b: BaseWriter, f: SqlFunction, args: seq<SqlExpr>): (r: Result<Resolution, FormatError>)
    ensures f.ServerUtcNow? ==> r == Ok(Resolution("SYSDATETIME", false, args))
    ensures f.ServerNow? ==> r == Ok(Resolution("SYSUTCDATETIME", false, args))
    ensures f.DateTimeAddTimeSpan? ==> (r.Ok? <==> |args| >= 2)
    ensures f.DateTimeAddTimeSpan? && r.Ok? ==>
      r.value.name == "DATEADD" && !r.value.excludeParens &&
      r.value.arguments == [Constant(StringV("SECOND")), args[SpanArgument], args[DateArgument]]
    ensures f.OtherFunction? ==> r == Ok(b.resolve(f, args))
  {
    match f
    case ServerUtcNow => Ok(Resolution("SYSDATETIME", false, args))
    case ServerNow => Ok(Resolution("SYSUTCDATETIME", false, args))
    case DateTimeAddTimeSpan =>
      if |args| < 2 then Err(IndexOutOfRange)
      else Ok(Resolution("DATEADD", false, [Constant(StringV("SECOND")), args[1], args[0]]))
    case OtherFunction(_) => Ok(b.resolve(f, args))
  }

  /** As written, each "now" function reads the other clock than the one it is named after. */
  lemma NowFunctionsSwapped(b: BaseWriter, args: seq<SqlExpr>)
    ensures NativeClock(ResolveSqlFunctionAsWritten(b, ServerUtcNow, args).value.name) == Some(LocalClock)
    ensures NativeClock(ResolveSqlFunctionAsWritten(b, ServerNow, args).value.name) == Some(UtcClock)
    ensures IntendedClock(ServerUtcNow) == Some(UtcClock) && IntendedClock(ServerNow) == Some(LocalClock)
  {
  }

  /** The resolver with the two "now" functions mapped to the clocks they are named after. */
  function ResolveSqlFunction(b: BaseWriter, f: SqlFunction, args: seq<SqlExpr>): (r: Result<Resolution, FormatError>)
    ensures (f.ServerUtcNow? || f.ServerNow?) ==> r.Ok? && r.value.arguments == args && !r.value.excludeParens
    ensures f.DateTimeAddTimeSpan? || f.OtherFunction? ==> r == ResolveSqlFunctionAsWritten(b, f, args)
  {
    match f
    case ServerUtcNow => Ok(Resolution("SYSUTCDATETIME", false, args))
    case ServerNow => Ok(Resolution("SYSDATETIME", false, args))
    case _ => ResolveSqlFunctionAsWritten(b, f, args)
  }

  /** Each "now" function resolves to the native function of the clock it is named after. */
  lemma {:induction false} ResolveNowReadsIntendedClock(b: BaseWriter, f: SqlFunction, args: seq<SqlExpr>)
    requires f.ServerUtcNow? || f.ServerNow?
    ensures NativeClock(ResolveSqlFunction(b, f, args).value.name) == IntendedClock(f)
  {
    match f
    case ServerUtcNow =>
      assert ResolveSqlFunction(b, f, args).value.name == "SYSUTCDATETIME";
    case ServerNow =>
      assert ResolveSqlFunction(b, f, args).value.name == "SYSDATETIME";
  }

  /**
    DATEADD(datepart, number, date): the resolved call adds the portable call's
    interval, counted in seconds, to its date; a call with fewer than two
    arguments fails.
  */
  lemma DateAddArguments(b: BaseWriter, args: seq<SqlExpr>)
    ensures |args| < 2 <==> ResolveSqlFunction(b, DateTimeAddTimeSpan, args) == Err(IndexOutOfRange)
    ensures |args| >= 2 ==>
      var call := ResolveSqlFunction(b, DateTimeAddTimeSpan, args).value;
      |call.arguments| == 3 && call.arguments[0] == Constant(StringV("SECOND")) &&
      call.arguments[1] == args[SpanArgument] && call.arguments[2] == args[DateArgument]
  {
  }

  // ---------------------------------------------------------------------------
  // The text of each dialect operation
  // ---------------------------------------------------------------------------

  const One := Constant(IntV(1))

  /** The comparison a boolean constant is written as: `1 = 1` for true, `1 <> 1` for false. */
  function BoolLiteral(v: bool): SqlExpr
  {
    Compare(if v then Equal else NotEqual, One, One)
  }

  /** The truth value of a comparison between two integer constants. */
  function Holds(e: SqlExpr): Option<bool>
  {
    match e
    case Compare(op, Constant(IntV(x)), Constant(IntV(y))) =>
      Some(if op == Equal then x == y else x != y)
    case _ => None
  }

  /** What VisitConstant writes for a constant. */
  function ConstantText(b: BaseWriter, value: ConstValue): string
  {
    match value
    case BoolV(v) => b.visit(BoolLiteral(v))
    case _ => b.visitConstant(value)
  }

  /**
    A boolean constant is written as a comparison of two equal integer
    constants that holds exactly when the constant is true; any other
    constant, null included, is the base formatter's.
  */
  lemma BooleanConstantMeaning(b: BaseWriter, value: ConstValue)
    ensures value.BoolV? ==>
      exists e :: ConstantText(b, value) == b.visit(e) && e.Compare? && e.left == One && e.right == One
                  && Holds(e) == Some(value.b)
    ensures !value.BoolV? ==> ConstantText(b, value) == b.visitConstant(value)
  {
    if value.BoolV? {
      var e := BoolLiteral(value.b);
      assert ConstantText(b, value) == b.visit(e) && Holds(e) == Some(value.b);
    }
  }

  /** What Visit writes for a node: the dialect's overrides, the base's text for the rest. */
  function VisitText(b: BaseWriter, e: SqlExpr): string
    decreases e, 1
  {
    match e
    case Constant(value) => ConstantText(b, value)
    case Over(_, _) => OverText(b, e)
    case _ => b.visit(e)
  }

  /** One ORDER BY item of an OVER clause: the item, then ` DESC` when it is descending. */
  function OrderingText(b: BaseWriter, o: Ordering): string
  {
    b.visitOrdering(o) + (if o.orderType == Descending then " DESC" else "")
  }

  function OrderingTexts(b: BaseWriter, orderBy: seq<Ordering>): (r: seq<string>)
    ensures |r| == |orderBy|
    ensures forall i :: 0 <= i < |orderBy| ==> r[i] == OrderingText(b, orderBy[i])
  {
    if orderBy == [] then [] else [OrderingText(b, orderBy[0])] + OrderingTexts(b, orderBy[1..])
  }

  function OverText(b: BaseWriter, e: SqlExpr): string
    requires e.Over?
    decreases e, 0
  {
    VisitText(b, e.source) + " OVER (ORDER BY " + Join(OrderingTexts(b, e.orderBy), b.listDelimiter) + ")"
  }

  /** `TOP(n) ` when only Take is set. */
  function TopText(b: BaseWriter, select: Select): string
  {
    if select.take.Some? && select.skip.None? then "TOP(" + VisitText(b, select.take.value) + ") " else ""
  }

  /** TOP is written exactly when Take is set without Skip, and then holds the rendered Take. */
  lemma TopWrittenExactly(b: BaseWriter, select: Select)
    ensures TopText(b, select) != [] <==> select.take.Some? && select.skip.None?
    ensures TopText(b, select) != [] ==>
      var t := TopText(b, select);
      t[..4] == "TOP(" && t[|t| - 2..] == ") " && t[4..|t| - 2] == VisitText(b, select.take.value)
  {
  }

  /** The text a reference action is written as. */
  function ActionText(b: BaseWriter, action: ReferenceAction): string
  {
    if action == Restrict then "NO ACTION" else b.action(action)
  }

  /** SQL Server has no RESTRICT: it is written as NO ACTION, and every other action as the base writes it. */
  lemma ActionTextOverridesRestrictOnly(b: BaseWriter, action: ReferenceAction)
    ensures action == Restrict ==> ActionText(b, action) == "NO ACTION"
    ensures action != Restrict ==> ActionText(b, action) == b.action(action)
  {
  }

  /** One column of the OUTPUT clause: the inserted row's quoted column. */
  function OutputColumn(b: BaseWriter, column: string): string
  {
    b.quote("INSERTED") + "." + b.quote(column)
  }

  function OutputColumns(b: BaseWriter, columns: seq<string>): (r: seq<string>)
    ensures |r| == |columns|
    ensures forall i :: 0 <= i < |columns| ==> r[i] == OutputColumn(b, columns[i])
  {
    if columns == [] then [] else [OutputColumn(b, columns[0])] + OutputColumns(b, columns[1..])
  }

  /** The delimiter of the OUTPUT list. */
  const OutputDelimiter := ","

  /** The OUTPUT clause for the auto-increment columns an insert returns; none for a null or empty list. */
  function OutputClause(b: BaseWriter, columns: Option<seq<string>>): string
  {
    if columns.None? || |columns.value| == 0 then ""
    else " OUTPUT " + Join(OutputColumns(b, columns.value), OutputDelimiter)
  }

  /**
    The OUTPUT clause is missing exactly when there is nothing to return;
    otherwise, when the quoted names hold no comma, cutting what follows
    ` OUTPUT ` at its commas gives back the inserted columns in list order.
  */
  lemma OutputClauseLists(b: BaseWriter, columns: Option<seq<string>>)
    ensures OutputClause(b, columns) == [] <==> columns.None? || columns.value == []
    ensures columns.Some? && columns.value != [] &&
            ',' !in b.quote("INSERTED") && (forall c :: c in columns.value ==> ',' !in b.quote(c)) ==>
              OutputClause(b, columns)[..8] == " OUTPUT " &&
              Split(OutputClause(b, columns)[8..], ',') == OutputColumns(b, columns.value)
  {
    if columns.Some? && columns.value != [] {
      var items := OutputColumns(b, columns.value);
      assert Join(items, ",") == Join(items, [','] );
      if ',' !in b.quote("INSERTED") && (forall c :: c in columns.value ==> ',' !in b.quote(c)) {
        forall i | 0 <= i < |items|
          ensures ',' !in items[i]
        {
          assert columns.value[i] in columns.value;
        }
        SplitJoin(items, ',');
        assert OutputClause(b, columns)[8..] == Join(items, ",");
      }
    }
  }

  const IdentityInsert := "IdentityInsert"

  /** The SET keyword for a configuration parameter. */
  function SetKeyword(parameter: string): string
  {
    if parameter == IdentityInsert then "IDENTITY_INSERT" else parameter
  }

  /** The target part of a SET command; a target that is not a table fails the cast after the blank. */
  function SetTargetText(target: Option<SqlExpr>): Emitted
  {
    match target
    case None => Emitted("", None)
    case Some(Table(name)) => Emitted(" " + name + " ", None)
    case Some(_) => Emitted(" ", Some(InvalidCast))
  }

  /** The value part of a SET command. */
  function SetValueText(b: BaseWriter, parameter: string, arguments: seq<SqlExpr>): Emitted
  {
    if parameter == IdentityInsert then
      if |arguments| == 0 then Emitted("", Some(IndexOutOfRange))
      else match arguments[0]
        case Constant(BoolV(v)) => Emitted(if v then "ON" else "OFF", None)
        case Constant(NullV) => Emitted("", Some(NullReference))
        case _ => Emitted("", Some(InvalidCast))
    else Emitted(" " + b.writeList(arguments), None)
  }

  /** Everything VisitSetCommand writes, and where it stops if a cast fails. */
  function SetCommandText(b: BaseWriter, command: SetCommand): Emitted
  {
    var head := "SET " + SetKeyword(command.parameter);
    var target := SetTargetText(command.target);
    if target.error.Some? then Emitted(head + target.written, target.error)
    else
      var value := SetValueText(b, command.parameter, command.arguments);
      if value.error.Some? then Emitted(head + target.written + value.written, value.error)
      else Emitted(head + target.written + value.written + b.newLine, None)
  }

  /** `SET IDENTITY_INSERT <table> ON|OFF`, from the first argument's truth value. */
  lemma IdentityInsertText(b: BaseWriter, table: string, v: bool, rest: seq<SqlExpr>)
    ensures SetCommandText(b, SetCommand(IdentityInsert, Some(Table(table)), [Constant(BoolV(v))] + rest)) ==
      Emitted("SET IDENTITY_INSERT " + table + " " + (if v then "ON" else "OFF") + b.newLine, None)
  {
    var onOff := if v then "ON" else "OFF";
    assert "SET " + SetKeyword(IdentityInsert) == "SET IDENTITY_INSERT";
    calc {
      "SET IDENTITY_INSERT" + (" " + table + " ") + onOff + b.newLine;
      "SET IDENTITY_INSERT" + " " + table + " " + onOff + b.newLine;
      { assert "SET IDENTITY_INSERT" + " " == "SET IDENTITY_INSERT "; }
      "SET IDENTITY_INSERT " + table + " " + onOff + b.newLine;
    }
  }

  /** Any other parameter is written under its own name, followed by its arguments. */
  lemma OtherSetCommandText(b: BaseWriter, parameter: string, arguments: seq<SqlExpr>)
    requires parameter != IdentityInsert
    ensures SetCommandText(b, SetCommand(parameter, None, arguments)) ==
      Emitted("SET " + parameter + " " + b.writeList(arguments) + b.newLine, None)
  {
    assert "SET " + parameter + "" == "SET " + parameter;
    assert "SET " + parameter + (" " + b.writeList(arguments)) == "SET " + parameter + " " + b.writeList(arguments);
  }

  /**
    A SET command fails exactly when its target is not a table, or when it
    sets IdentityInsert without a first argument that is a boolean constant;
    whatever happens, the text starts with `SET ` and the keyword.
  */
  lemma SetCommandFails(b: BaseWriter, command: SetCommand)
    ensures SetCommandText(b, command).error.Some? <==>
      (command.target.Some? && !command.target.value.Table?) ||
      (command.parameter == IdentityInsert &&
        (|command.arguments| == 0 || !command.arguments[0].Constant? || !command.arguments[0].value.BoolV?))
    ensures var w := SetCommandText(b, command).written; var h := "SET " + SetKeyword(command.parameter);
      |w| >= |h| && w[..|h|] == h
  {
  }

  /** Pre-processing runs the limit amender, then the boolean normalizer, then the base's own pass. */
  function PreProcess(b: BaseWriter, e: SqlExpr): (r: SqlExpr)
    ensures b.amendLimit(e) == e && b.normalizeBooleans(e) == e ==> r == b.preProcess(e)
  {
    b.preProcess(b.normalizeBooleans(b.amendLimit(e)))
  }

  // ---------------------------------------------------------------------------
  // The formatter and its text buffer
  // ---------------------------------------------------------------------------

  class Formatter {
    const base: BaseWriter
    var text: string

    constructor(base: BaseWriter)
      ensures this.base == base && text == []
    {
      this.base := base;
      text := [];
    }

    /** The base writer's Write of a string: appends it to the buffer. */
    method Write(s: string)
      modifies this
      ensures text == old(text) + s
    {
      text := text + s;
    }

    /** Visit with the dialect's overrides; returns the node it was given. */
    method Visit(e: SqlExpr) returns (r: SqlExpr)
      modifies this
      ensures r == e && text == old(text) + VisitText(base, e)
      decreases e, 1
    {
      match e
      case Constant(value) =>
        r := VisitConstant(e);
      case Over(_, _) =>
        r := VisitOver(e);
      case _ =>
        Write(base.visit(e));
        r := e;
    }

    /** A boolean constant is written as a comparison; the constant node is returned as it is. */
    method VisitConstant(e: SqlExpr) returns (r: SqlExpr)
      requires e.Constant?
      modifies this
      ensures r == e && text == old(text) + ConstantText(base, e.value)
    {
      r := e;
      match e.value
      case BoolV(v) =>
        Write(base.visit(BoolLiteral(v)));
      case _ =>
        Write(base.visitConstant(e.value));
    }

    /** Writes `TOP(n) ` when only Take is set. */
    method AppendTop(select: Select)
      modifies this
      ensures text == old(text) + TopText(base, select)
    {
      if select.take.Some? && select.skip.None? {
        Write("TOP(");
        var _ := Visit(select.take.value);
        Write(") ");
      }
    }

    /** SQL Server has no trailing limit clause: nothing is written, and Skip with Take is refused. */
    method AppendLimit(select: Select) returns (r: Option<FormatError>)
      ensures r.Some? <==> select.skip.Some? && select.take.Some?
      ensures r.Some? ==> r.value == SkipTakeNotSupported
    {
      if select.skip.Some? && select.take.Some? {
        return Some(SkipTakeNotSupported);
      }
      return None;
    }

    /** Writes a referential action. */
    method WriteAction(action: ReferenceAction)
      modifies this
      ensures text == old(text) + ActionText(base, action)
    {
      if action == Restrict {
        Write("NO ACTION");
        return;
      }
      Write(base.action(action));
    }

    /**
      The base formatter's delimited-list writer, for items whose text is
      already known: each item, with `delimiter` between neighbours.
    */
    method WriteDelimited(items: seq<string>, delimiter: string)
      modifies this
      ensures text == old(text) + Join(items, delimiter)
    {
      var i := 0;
      while i < |items|
        invariant 0 <= i <= |items|
        invariant text == old(text) + Join(items[..i], delimiter)
      {
        if i > 0 {
          Write(delimiter);
          JoinSnoc(items[..i], items[i], delimiter);
        }
        Write(items[i]);
        assert items[..i + 1] == items[..i] + [items[i]];
        i := i + 1;
      }
      assert items[..i] == items;
    }

    /** Writes the OUTPUT clause: ` OUTPUT ` and the quoted inserted columns, or nothing. */
    method WriteInsertIntoReturning(columns: Option<seq<string>>)
      modifies this
      ensures text == old(text) + OutputClause(base, columns)
    {
      if columns.None? || |columns.value| == 0 {
        return;
      }
      Write(" OUTPUT ");
      WriteDelimited(OutputColumns(base, columns.value), OutputDelimiter);
      Write("");
    }

    /** Writes an OVER clause: the source, then its ORDER BY items with ` DESC` on descending ones. */
    method VisitOver(e: SqlExpr) returns (r: SqlExpr)
      requires e.Over?
      modifies this
      ensures r == e && text == old(text) + OverText(base, e)
      decreases e, 0
    {
      var _ := Visit(e.source);
      Write(" OVER (ORDER BY ");
      WriteDelimited(OrderingTexts(base, e.orderBy), base.listDelimiter);
      Write(")");
      r := e;
    }

    /** The target part of a SET command: false when the target is not a table. */
    method WriteSetTarget(target: Option<SqlExpr>) returns (ok: bool)
      modifies this
      ensures text == old(text) + SetTargetText(target).written
      ensures ok <==> SetTargetText(target).error.None?
    {
      if target.Some? {
        Write(" ");
        if !target.value.Table? {
          return false;
        }
        Write(target.value.name);
        Write(" ");
      }
      return true;
    }

    /** The value part of a SET command, and the exception it ends with. */
    method WriteSetValue(parameter: string, arguments: seq<SqlExpr>) returns (error: Option<FormatError>)
      modifies this
      ensures text == old(text) + SetValueText(base, parameter, arguments).written
      ensures error == SetValueText(base, parameter, arguments).error
    {
      if parameter == IdentityInsert {
        if |arguments| == 0 {
          return Some(IndexOutOfRange);
        }
        match arguments[0]
        case Constant(BoolV(v)) =>
          Write(if v then "ON" else "OFF");
          return None;
        case Constant(NullV) =>
          return Some(NullReference);
        case _ =>
          return Some(InvalidCast);
      }
      Write(" ");
      Write(base.writeList(arguments));
      return None;
    }

    /** Writes a SET command; a failed cast or a missing argument stops it where it happens. */
    method VisitSetCommand(command: SetCommand) returns (r: Result<SetCommand, FormatError>)
      modifies this
      ensures text == old(text) + SetCommandText(base, command).written
      ensures r.Ok? <==> SetCommandText(base, command).error.None?
      ensures r.Ok? ==> r.value == command
      ensures r.Err? ==> r.error == SetCommandText(base, command).error.value
    {
      Write("SET ");
      Write(SetKeyword(command.parameter));
      var ok := WriteSetTarget(command.target);
      if !ok {
        return Err(InvalidCast);
      }
      var error := WriteSetValue(command.parameter, command.arguments);
      if error.Some? {
        return Err(error.value);
      }
      Write(base.newLine);
      return Ok(command);
    }
  }
}
