/**
  The partial evaluator of LINQ expression trees. It walks a tree and computes
  its value directly for the node kinds it knows; for any other node, or
  whenever a sub-evaluation gives up, it yields a failure sentinel, and the
  top-level entry point then falls back to compiling and running the tree.

  Reflection (constructors, methods, fields and properties), type conversion,
  the arithmetic operator table, reference identity of boxed values and the
  compiled fallback are outside the model: they are the fields of a `Host`
  value (and a parameter of `Interpret`), and the model is proved for every
  choice of them.
*/
module ExpressionInterpreter {
  import opened Wrappers
  import opened NumericPromotion

  /** The exceptions the walk can raise. */
  datatype Exn =
    | InvalidCast
    | NullReference
    | TargetInvocation(inner: Exn)
    | HostException(name: string)

  /** A field, a property, or another kind of member. */
  datatype Member = Field(name: string) | Property(name: string) | OtherMember(name: string)

  /** The binary node kinds (the rest of the .NET kinds are `OtherBinary`). */
  datatype BinaryKind =
    | Add | Subtract | Multiply | Divide | And | Or | ExclusiveOr | AndAlso | OrElse | Equal | NotEqual
    | OtherBinary(name: string)

  /** The unary node kinds. */
  datatype UnaryKind = Convert | ConvertChecked | OtherUnary(name: string)

  /** The node kind of an expression, as the dispatch sees it. */
  datatype NodeKind =
    | NewKind | MemberInitKind | MemberAccessKind | CallKind | ConstantKind | ConditionalKind
    | BinaryNode(binary: BinaryKind) | UnaryNode(unary: UnaryKind) | OtherKind(name: string)

  /**
    A run-time value: null, a boxed bool, a boxed integer of a given integral
    type, a string, an opaque object, or an expression node returned as a value.
  */
  datatype Value =
    | Null
    | Bool(b: bool)
    | Num(numType: TypeTag, n: int)
    | Str(s: string)
    | Obj(objType: TypeTag, id: nat)
    | NodeValue(node: Expr)

  /** A constructor call: its type, its constructor (None for a parameterless value type) and arguments. */
  datatype NewNode = NewNode(newType: TypeTag, ctor: Option<string>, args: seq<Expr>)

  datatype Binding =
    | Assignment(member: Member, expr: Expr)
    | ListBinding(listMember: Member)
    | MemberMemberBinding(nestedMember: Member)

  datatype Expr =
    | Constant(ty: TypeTag, value: Value)
    | New(init: NewNode)
    | MemberInit(init: NewNode, bindings: seq<Binding>)
    | Unary(unary: UnaryKind, ty: TypeTag, operatorMethod: Option<string>, operand: Expr)
    | MemberAccess(ty: TypeTag, target: Option<Expr>, member: Member)
    | Call(ty: TypeTag, instance: Option<Expr>, callee: string, args: seq<Expr>)
    | Conditional(ty: TypeTag, test: Expr, ifTrue: Expr, ifFalse: Expr)
    | Binary(binary: BinaryKind, ty: TypeTag, left: Expr, right: Expr)
    | OtherNode(name: string, ty: TypeTag)

  /** The result of visiting a node: a value, the failure sentinel, or a raised exception. */
  datatype Eval<+T> = Done(value: T) | Failed | Thrown(ex: Exn)

  /** What the top-level call does: return a value or raise an exception. */
  datatype Run = Returned(value: Value) | Raised(ex: Exn)

  /** The reflection and conversion services the interpreter calls. */
  datatype Host = Host(
    createInstance: TypeTag -> Result<Value, Exn>,
    construct: (string, seq<Value>) -> Result<Value, Exn>,
    invoke: (string, Value, seq<Value>) -> Result<Value, Exn>,
    getMember: (Member, Value) -> Result<Value, Exn>,
    setMember: (Member, Value, Value) -> Result<Value, Exn>,
    changeType: (Value, TypeTag) -> Result<Value, Exn>,
    binaryFunc: (BinaryKind, TypeTag) -> Option<(Value, Value) -> Result<Value, Exn>>,
    canConvertTo: (TypeTag, TypeTag) -> bool,
    convertTo: (TypeTag, Value, TypeTag) -> Result<Value, Exn>,
    sameReference: (Value, Value) -> bool,
    defaultEquals: (Value, Value) -> bool)

  /** The static type of an expression. */
  function TypeOf(e: Expr): TypeTag
  {
    match e
    case New(n) => n.newType
    case MemberInit(n, _) => n.newType
    case _ => e.ty
  }

  function NodeType(e: Expr): NodeKind
  {
    match e
    case Constant(_, _) => ConstantKind
    case New(_) => NewKind
    case MemberInit(_, _) => MemberInitKind
    case Unary(k, _, _, _) => UnaryNode(k)
    case MemberAccess(_, _, _) => MemberAccessKind
    case Call(_, _, _, _) => CallKind
    case Conditional(_, _, _, _) => ConditionalKind
    case Binary(k, _, _, _) => BinaryNode(k)
    case OtherNode(name, _) => OtherKind(name)
  }

  /** The node kinds the dispatch hands to a handler; every other kind gives the sentinel. */
  predicate Dispatched(k: NodeKind)
  {
    k in {NewKind, MemberInitKind, UnaryNode(Convert), MemberAccessKind, CallKind, ConstantKind, ConditionalKind,
          BinaryNode(Add), BinaryNode(AndAlso), BinaryNode(Or), BinaryNode(OrElse), BinaryNode(Multiply),
          BinaryNode(Equal)}
  }

  /** A host call's outcome as a visit result. */
  function FromResult(r: Result<Value, Exn>): Eval<Value>
  {
    match r
    case Ok(v) => Done(v)
    case Err(x) => Thrown(x)
  }

  /** The `(bool)` cast of a visit result: the sentinel is not a bool, and null cannot be unboxed. */
  function UnboxBool(o: Eval<Value>): Result<bool, Exn>
  {
    match o
    case Done(Bool(b)) => Ok(b)
    case Done(Null) => Err(NullReference)
    case Done(_) => Err(InvalidCast)
    case Failed => Err(InvalidCast)
    case Thrown(x) => Err(x)
  }

  /** Reference equality of two results: null equals only null; otherwise the host decides. */
  function ReferenceEquals(h: Host, a: Value, b: Value): bool
  {
    if a.Null? || b.Null? then a.Null? && b.Null? else h.sameReference(a, b)
  }

  // ---------------------------------------------------------------------------
  // The walk
  // ---------------------------------------------------------------------------

  /** Visits a node: dispatches on its kind, and gives the sentinel for kinds it does not handle. */
  function Visit(h: Host, e: Expr): Eval<Value>
    decreases e, 2
  {
    if !Dispatched(NodeType(e)) then Failed
    else
      match e
      case Constant(_, v) => Done(v)
      case New(n) => VisitNew(h, n)
      case MemberInit(n, bs) =>
        (match VisitNew(h, n)
         case Done(obj) => VisitBindings(h, obj, bs)
         case Failed => Failed
         case Thrown(x) => Thrown(x))
      case Unary(_, _, _, _) => VisitUnary(h, e)
      case MemberAccess(_, _, _) => VisitMember(h, e)
      case Call(_, _, _, _) => VisitCall(h, e)
      case Conditional(_, _, _, _) => VisitConditional(h, e)
      case Binary(_, _, _, _) => VisitBinary(h, e)
      case OtherNode(_, _) => Failed
  }

  /** Visits the arguments in order; the first that fails or raises decides the outcome. */
  function VisitArgs(h: Host, args: seq<Expr>): (r: Eval<seq<Value>>)
    ensures r.Done? ==> |r.value| == |args|
    decreases args, 0
  {
    if args == [] then Done([])
    else
      match VisitArgs(h, args[..|args| - 1])
      case Done(vs) =>
        (match Visit(h, args[|args| - 1])
         case Done(v) => Done(vs + [v])
         case Failed => Failed
         case Thrown(x) => Thrown(x))
      case Failed => Failed
      case Thrown(x) => Thrown(x)
  }

  /** A constructor call: a parameterless value type is created directly, otherwise the arguments are visited first. */
  function VisitNew(h: Host, n: NewNode): Eval<Value>
    decreases n, 1
  {
    if n.ctor.None? then FromResult(h.createInstance(n.newType))
    else
      match VisitArgs(h, n.args)
      case Done(vs) => FromResult(h.construct(n.ctor.value, vs))
      case Failed => Failed
      case Thrown(x) => Thrown(x)
  }

  /** Applies the bindings of a member initialiser to the new object, in order. */
  function VisitBindings(h: Host, obj: Value, bs: seq<Binding>): Eval<Value>
    decreases bs, 0
  {
    if bs == [] then Done(obj)
    else
      match Bind(h, obj, bs[0])
      case Done(obj') => VisitBindings(h, obj', bs[1..])
      case Failed => Failed
      case Thrown(x) => Thrown(x)
  }

  /** One binding: an assignment to a field or property stores the visited value; anything else fails. */
  function Bind(h: Host, obj: Value, b: Binding): Eval<Value>
    decreases b, 0
  {
    match b
    case Assignment(m, x) =>
      (match Visit(h, x)
       case Done(v) => if m.Field? || m.Property? then FromResult(h.setMember(m, obj, v)) else Failed
       case Failed => Failed
       case Thrown(ex) => Thrown(ex))
    case _ => Failed
  }

  /** A conversion: only a plain Convert without an operator method is evaluated; null stays null. */
  function VisitUnary(h: Host, e: Expr): Eval<Value>
    requires e.Unary?
    decreases e, 1
  {
    if e.operatorMethod.Some? then Failed
    else if e.unary != Convert then Failed
    else
      match Visit(h, e.operand)
      case Failed => Failed
      case Thrown(x) => Thrown(x)
      case Done(Null) => Done(Null)
      case Done(v) =>
        if h.canConvertTo(TypeOf(e.operand), e.ty) then FromResult(h.convertTo(TypeOf(e.operand), v, e.ty))
        else Failed
  }

  /** A member access: when the target fails, the access node itself is the result. */
  function VisitMember(h: Host, e: Expr): Eval<Value>
    requires e.MemberAccess?
    decreases e, 1
  {
    var parent := if e.target.None? then Done(Null) else (assert e.target.value < e.target; Visit(h, e.target.value));
    match parent
    case Failed => Done(NodeValue(e))
    case Thrown(x) => Thrown(x)
    case Done(p) =>
      if e.member.Field? || e.member.Property? then FromResult(h.getMember(e.member, p)) else Failed
  }

  /** A method call: the instance (if any) is visited, then the arguments, then the method is invoked. */
  function VisitCall(h: Host, e: Expr): Eval<Value>
    requires e.Call?
    decreases e, 1
  {
    var parent := if e.instance.None? then Done(Null) else (assert e.instance.value < e.instance; Visit(h, e.instance.value));
    match parent
    case Failed => Failed
    case Thrown(x) => Thrown(x)
    case Done(p) =>
      match VisitArgs(h, e.args)
      case Done(vs) => FromResult(h.invoke(e.callee, p, vs))
      case Failed => Failed
      case Thrown(x) => Thrown(x)
  }

  /** A conditional: the test is visited and cast to bool, then only the selected branch is visited. */
  function VisitConditional(h: Host, e: Expr): Eval<Value>
    requires e.Conditional?
    decreases e, 1
  {
    var test := Visit(h, e.test);
    if test.Failed? then Failed
    else
      match UnboxBool(test)
      case Ok(b) => if b then Visit(h, e.ifTrue) else Visit(h, e.ifFalse)
      case Err(x) => Thrown(x)
  }

  /** A binary node, by kind. */
  function VisitBinary(h: Host, e: Expr): Eval<Value>
    requires e.Binary?
    decreases e, 1
  {
    match e.binary
    case OrElse =>
      (match UnboxBool(Visit(h, e.left))
       case Err(x) => Thrown(x)
       case Ok(true) => Done(Bool(true))
       case Ok(false) =>
         (match UnboxBool(Visit(h, e.right))
          case Ok(b) => Done(Bool(b))
          case Err(x) => Thrown(x)))
    case AndAlso =>
      (match UnboxBool(Visit(h, e.left))
       case Err(x) => Thrown(x)
       case Ok(false) => Done(Bool(false))
       case Ok(true) =>
         (match UnboxBool(Visit(h, e.right))
          case Ok(b) => Done(Bool(b))
          case Err(x) => Thrown(x)))
    case Or => VisitBitwise(h, e)
    case And => VisitBitwise(h, e)
    case ExclusiveOr => VisitBitwise(h, e)
    case Equal => VisitEquality(h, e)
    case NotEqual => VisitEquality(h, e)
    case Add => VisitArithmetic(h, e)
    case Subtract => VisitArithmetic(h, e)
    case Multiply => VisitArithmetic(h, e)
    case Divide => VisitArithmetic(h, e)
    case OtherBinary(_) => Failed
  }

  /** `Convert.ChangeType(x, typeof(long))` followed by the `(long)` unboxing. */
  function ToLong(h: Host, o: Eval<Value>): Result<int, Exn>
  {
    match o
    case Failed => Err(InvalidCast)
    case Thrown(x) => Err(x)
    case Done(v) =>
      match h.changeType(v, LongT)
      case Ok(Num(LongT, n)) => Ok(n)
      case Ok(_) => Err(InvalidCast)
      case Err(x) => Err(x)
  }

  const TwoTo64: int := 0x1_0000_0000_0000_0000
  const TwoTo63: int := 0x8000_0000_0000_0000

  /** The 64-bit two's-complement pattern of a long. */
  function ToBits(n: int): bv64
  {
    (n % TwoTo64) as bv64
  }

  /** The long an unsigned 64-bit value stands for in two's complement. */
  function Signed(n: int): int
  {
    if n < TwoTo63 then n else n - TwoTo64
  }

  /** The long a 64-bit pattern stands for. */
  function FromBits(b: bv64): int
  {
    Signed(b as int)
  }

  /** A bitwise operator on two longs. */
  function Combine(k: BinaryKind, a: int, b: int): int
    requires k in {Or, And, ExclusiveOr}
  {
    match k
    case Or => FromBits(ToBits(a) | ToBits(b))
    case And => FromBits(ToBits(a) & ToBits(b))
    case ExclusiveOr => FromBits(ToBits(a) ^ ToBits(b))
  }

  /** Or / And / ExclusiveOr: both operands are changed to long (left first), combined, and changed to the node's type. */
  function VisitBitwise(h: Host, e: Expr): Eval<Value>
    requires e.Binary? && e.binary in {Or, And, ExclusiveOr}
    decreases e, 0
  {
    match ToLong(h, Visit(h, e.left))
    case Err(x) => Thrown(x)
    case Ok(a) =>
      match ToLong(h, Visit(h, e.right))
      case Err(x) => Thrown(x)
      case Ok(b) => FromResult(h.changeType(Num(LongT, Combine(e.binary, a, b)), e.ty))
  }

  /** The comparison of two visited operands of an Equal or NotEqual node whose type is bool. */
  function Compare(h: Host, k: BinaryKind, leftType: TypeTag, rightType: TypeTag, a: Value, b: Value): Eval<Value>
  {
    if ReferenceEquals(h, a, b) then Done(Bool(k == Equal))
    else if a.Num? && b.Num? && a.numType == ShortT && b.numType == ShortT then Done(Bool(a.n == b.n && k == Equal))
    else if a.Num? && b.Num? && a.numType == IntT && b.numType == IntT then Done(Bool(a.n == b.n && k == Equal))
    else if a.Num? && b.Num? && a.numType == LongT && b.numType == LongT then Done(Bool(a.n == b.n && k == Equal))
    else if a.Str? && b.Str? then Done(Bool(a.s == b.s && k == Equal))
    else if leftType == ObjectT && rightType == ObjectT then Done(Bool(h.defaultEquals(a, b)))
    else Failed
  }

  /** Equal / NotEqual: only a bool-typed node is evaluated; both operands must succeed. */
  function VisitEquality(h: Host, e: Expr): Eval<Value>
    requires e.Binary? && e.binary in {Equal, NotEqual}
    decreases e, 0
  {
    if e.ty != BoolT then Failed
    else
      match Visit(h, e.left)
      case Failed => Failed
      case Thrown(x) => Thrown(x)
      case Done(a) =>
        match Visit(h, e.right)
        case Failed => Failed
        case Thrown(x) => Thrown(x)
        case Done(b) => Compare(h, e.binary, TypeOf(e.left), TypeOf(e.right), a, b)
  }

  /**
    Add / Subtract / Multiply / Divide: both operands are visited, the ladder
    picks the operand type, both are changed to it, and the host's operator for
    that type is applied.
  */
  function VisitArithmetic(h: Host, e: Expr): Eval<Value>
    requires e.Binary? && e.binary in {Add, Subtract, Multiply, Divide}
    decreases e, 0
  {
    match Visit(h, e.left)
    case Failed => Failed
    case Thrown(x) => Thrown(x)
    case Done(a) =>
      match Visit(h, e.right)
      case Failed => Failed
      case Thrown(x) => Thrown(x)
      case Done(b) => Apply(h, e.binary, Promote(TypeOf(e.left), TypeOf(e.right)), a, b)
  }

  /** Converts both operands to the chosen type and applies the host's operator. */
  function Apply(h: Host, k: BinaryKind, t: Option<TypeTag>, a: Value, b: Value): Eval<Value>
  {
    match t
    case None => Failed
    case Some(ty) =>
      match h.changeType(a, ty)
      case Err(x) => Thrown(x)
      case Ok(a') =>
        match h.changeType(b, ty)
        case Err(x) => Thrown(x)
        case Ok(b') =>
          match h.binaryFunc(k, ty)
          case None => Failed
          case Some(f) => FromResult(f(a', b'))
  }

  /** Unwraps one level of TargetInvocation, as the top-level catch does. */
  function Unwrap(x: Exn): Exn
  {
    if x.TargetInvocation? then x.inner else x
  }

  /** The entry point: the walk's value, or on the sentinel the compiled fallback's. */
  function Interpret(h: Host, compiled: Expr -> Result<Value, Exn>, e: Expr): Run
  {
    match Visit(h, e)
    case Done(v) => Returned(v)
    case Thrown(x) => Raised(Unwrap(x))
    case Failed =>
      match compiled(e)
      case Ok(v) => Returned(v)
      case Err(x) => Raised(Unwrap(x))
  }

  // ---------------------------------------------------------------------------
  // Dispatch and the entry point
  // ---------------------------------------------------------------------------

  /**
    A kind the dispatch does not list gives the sentinel, whatever the node
    holds; in particular Subtract, Divide, NotEqual, And and ExclusiveOr never
    reach the binary handler that has branches for them.
  */
  lemma UndispatchedFails(h: Host, e: Expr)
    ensures !Dispatched(NodeType(e)) ==> Visit(h, e) == Failed
    ensures e.Binary? && e.binary in {Subtract, Divide, NotEqual, And, ExclusiveOr} ==> Visit(h, e) == Failed
    ensures e.Unary? && e.unary != Convert ==> Visit(h, e) == Failed
  {
  }

  /**
    The compiled fallback runs exactly when the walk gives the sentinel: any
    other outcome is returned (or raised, one TargetInvocation level unwrapped)
    whatever the fallback would do.
  */
  lemma InterpretFallsBackOnlyOnSentinel(h: Host, c1: Expr -> Result<Value, Exn>, c2: Expr -> Result<Value, Exn>, e: Expr)
    ensures Visit(h, e).Done? ==> Interpret(h, c1, e) == Returned(Visit(h, e).value)
    ensures Visit(h, e).Failed? && c1(e).Ok? ==> Interpret(h, c1, e) == Returned(c1(e).value)
    ensures Visit(h, e).Failed? && c1(e).Err? ==> Interpret(h, c1, e) == Raised(Unwrap(c1(e).error))
    ensures !Visit(h, e).Failed? ==> Interpret(h, c1, e) == Interpret(h, c2, e)
    ensures Visit(h, e) == Thrown(TargetInvocation(NullReference)) ==> Interpret(h, c1, e) == Raised(NullReference)
  {
  }

  /** A constant evaluates to the value it holds, and the entry point returns it. */
  lemma ConstantEvaluates(h: Host, compiled: Expr -> Result<Value, Exn>, ty: TypeTag, v: Value)
    ensures Visit(h, Constant(ty, v)) == Done(v)
    ensures Interpret(h, compiled, Constant(ty, v)) == Returned(v)
  {
  }

  // ---------------------------------------------------------------------------
  // Short-circuit operators and the conditional
  // ---------------------------------------------------------------------------

  /**
    OrElse: a true left operand gives true whatever the right operand is; a false
    one gives the right operand's bool. A left operand that is the sentinel or
    null is cast to bool and raises.
  */
  lemma OrElseShortCircuits(h: Host, ty: TypeTag, l: Expr, r: Expr, b: bool)
    ensures Visit(h, l) == Done(Bool(true)) ==> Visit(h, Binary(OrElse, ty, l, r)) == Done(Bool(true))
    ensures Visit(h, l) == Done(Bool(false)) && Visit(h, r) == Done(Bool(b)) ==>
              Visit(h, Binary(OrElse, ty, l, r)) == Done(Bool(b))
    ensures Visit(h, l) == Failed ==> Visit(h, Binary(OrElse, ty, l, r)) == Thrown(InvalidCast)
    ensures Visit(h, l) == Done(Null) ==> Visit(h, Binary(OrElse, ty, l, r)) == Thrown(NullReference)
  {
    assert Visit(h, Binary(OrElse, ty, l, r)) == VisitBinary(h, Binary(OrElse, ty, l, r));
  }

  /** AndAlso: a false left operand gives false whatever the right operand is; a true one gives the right operand's bool. */
  lemma AndAlsoShortCircuits(h: Host, ty: TypeTag, l: Expr, r: Expr, b: bool)
    ensures Visit(h, l) == Done(Bool(false)) ==> Visit(h, Binary(AndAlso, ty, l, r)) == Done(Bool(false))
    ensures Visit(h, l) == Done(Bool(true)) && Visit(h, r) == Done(Bool(b)) ==>
              Visit(h, Binary(AndAlso, ty, l, r)) == Done(Bool(b))
    ensures Visit(h, l) == Failed ==> Visit(h, Binary(AndAlso, ty, l, r)) == Thrown(InvalidCast)
    ensures Visit(h, l) == Done(Bool(true)) && Visit(h, r) == Failed ==>
              Visit(h, Binary(AndAlso, ty, l, r)) == Thrown(InvalidCast)
  {
    assert Visit(h, Binary(AndAlso, ty, l, r)) == VisitBinary(h, Binary(AndAlso, ty, l, r));
  }

  /**
    Or: both operands are changed to long, the left first, combined bit by bit
    and changed to the node's type. A sentinel operand is not a convertible
    value, so its conversion raises InvalidCast instead of giving the sentinel.
  */
  lemma OrSemantics(h: Host, ty: TypeTag, l: Expr, r: Expr, x: int, y: int)
    ensures Visit(h, l).Done? && h.changeType(Visit(h, l).value, LongT) == Ok(Num(LongT, x))
            && Visit(h, r).Done? && h.changeType(Visit(h, r).value, LongT) == Ok(Num(LongT, y)) ==>
              Visit(h, Binary(Or, ty, l, r)) == FromResult(h.changeType(Num(LongT, Combine(Or, x, y)), ty))
    ensures Visit(h, l) == Failed ==> Visit(h, Binary(Or, ty, l, r)) == Thrown(InvalidCast)
    ensures Visit(h, l).Done? && h.changeType(Visit(h, l).value, LongT) == Ok(Num(LongT, x)) && Visit(h, r) == Failed ==>
              Visit(h, Binary(Or, ty, l, r)) == Thrown(InvalidCast)
  {
    var e := Binary(Or, ty, l, r);
    assert Visit(h, e) == VisitBinary(h, e) == VisitBitwise(h, e);
    if Visit(h, l) == Failed {
      assert ToLong(h, Visit(h, l)) == Err(InvalidCast);
    } else if Visit(h, l).Done? && h.changeType(Visit(h, l).value, LongT) == Ok(Num(LongT, x)) {
      assert ToLong(h, Visit(h, l)) == Ok(x);
      if Visit(h, r) == Failed {
        assert ToLong(h, Visit(h, r)) == Err(InvalidCast);
      } else if Visit(h, r).Done? && h.changeType(Visit(h, r).value, LongT) == Ok(Num(LongT, y)) {
        assert ToLong(h, Visit(h, r)) == Ok(y);
      }
    }
  }

  /** An unsigned 64-bit value read as a long is a long, and reduces back to the value. */
  lemma SignedInRange(n: int)
    requires 0 <= n < TwoTo64
    ensures -TwoTo63 <= Signed(n) < TwoTo63 && Signed(n) % TwoTo64 == n
  {
  }

  /** Every 64-bit pattern stands for a long, and that long's pattern is the pattern itself. */
  lemma PatternRoundTrip(b: bv64)
    ensures -TwoTo63 <= FromBits(b) < TwoTo63
    ensures ToBits(FromBits(b)) == b
  {
    assert 0 <= b as int < TwoTo64;
    SignedInRange(b as int);
  }

  /** A non-negative long's pattern is its plain binary value. */
  lemma NonNegativeBits(a: int)
    requires 0 <= a < TwoTo64
    ensures ToBits(a) == a as bv64
  {
    assert a % TwoTo64 == a;
  }

  /**
    The bitwise Or of two longs is the long whose 64-bit two's-complement
    pattern is the Or of the operands' patterns.
  */
  lemma OrOfLongs(a: int, b: int)
    ensures -TwoTo63 <= Combine(Or, a, b) < TwoTo63
    ensures ToBits(Combine(Or, a, b)) == ToBits(a) | ToBits(b)
  {
    PatternRoundTrip(ToBits(a) | ToBits(b));
  }

  /** Or does not depend on operand order. */
  lemma OrCommutes(a: int, b: int)
    ensures Combine(Or, a, b) == Combine(Or, b, a)
  {
    assert ToBits(a) | ToBits(b) == ToBits(b) | ToBits(a);
  }

  /** On non-negative longs the pattern of the Or is the Or of their binary values. */
  lemma OrOfNonNegative(a: int, b: int)
    requires 0 <= a < TwoTo63 && 0 <= b < TwoTo63
    ensures ToBits(Combine(Or, a, b)) == a as bv64 | b as bv64
  {
    OrOfLongs(a, b);
    NonNegativeBits(a);
    NonNegativeBits(b);
  }

  /**
    A conditional evaluates to the branch its test selects and never looks at
    the other one; a failed test propagates the sentinel, a null test raises.
  */
  lemma ConditionalSelectsBranch(h: Host, ty: TypeTag, test: Expr, a: Expr, b: Expr, flag: bool)
    ensures Visit(h, test) == Done(Bool(flag)) ==>
              Visit(h, Conditional(ty, test, a, b)) == Visit(h, if flag then a else b)
    ensures Visit(h, test) == Failed ==> Visit(h, Conditional(ty, test, a, b)) == Failed
    ensures Visit(h, test) == Done(Null) ==> Visit(h, Conditional(ty, test, a, b)) == Thrown(NullReference)
  {
    assert Visit(h, Conditional(ty, test, a, b)) == VisitConditional(h, Conditional(ty, test, a, b));
  }

  // ---------------------------------------------------------------------------
  // Equality and arithmetic
  // ---------------------------------------------------------------------------

  /** Two boxed values the value comparison of Equal handles: short, int or long of the same type, or two strings. */
  predicate SameKindScalars(a: Value, b: Value)
  {
    (a.Num? && b.Num? && a.numType == b.numType && a.numType in {ShortT, IntT, LongT}) || (a.Str? && b.Str?)
  }

  /** The value two same-kind scalars hold, for comparison. */
  predicate SameScalar(a: Value, b: Value)
    requires SameKindScalars(a, b)
  {
    if a.Num? then a.n == b.n else a.s == b.s
  }

  /**
    Equal on a bool-typed node whose operands both evaluate: identical references
    give true; same-kind short/int/long/string operands compare by value; two
    object-typed operands use default equality; any other pair gives the
    sentinel. A node of another type gives the sentinel.
  */
  lemma EqualSemantics(h: Host, ty: TypeTag, l: Expr, r: Expr, a: Value, b: Value)
    requires Visit(h, l) == Done(a) && Visit(h, r) == Done(b)
    ensures ty != BoolT ==> Visit(h, Binary(Equal, ty, l, r)) == Failed
    ensures ty == BoolT && ReferenceEquals(h, a, b) ==> Visit(h, Binary(Equal, ty, l, r)) == Done(Bool(true))
    ensures ty == BoolT && !ReferenceEquals(h, a, b) && SameKindScalars(a, b) ==>
              Visit(h, Binary(Equal, ty, l, r)) == Done(Bool(SameScalar(a, b)))
    ensures ty == BoolT && !ReferenceEquals(h, a, b) && !SameKindScalars(a, b) ==>
              Visit(h, Binary(Equal, ty, l, r)) ==
                (if TypeOf(l) == ObjectT && TypeOf(r) == ObjectT then Done(Bool(h.defaultEquals(a, b))) else Failed)
  {
    var e := Binary(Equal, ty, l, r);
    assert Visit(h, e) == VisitBinary(h, e) == VisitEquality(h, e);
  }

  /** The sentinel from either operand of Equal propagates; the left operand is visited first. */
  lemma EqualPropagatesFailure(h: Host, l: Expr, r: Expr)
    ensures Visit(h, l).Failed? ==> Visit(h, Binary(Equal, BoolT, l, r)) == Failed
    ensures Visit(h, l).Done? && Visit(h, r).Failed? ==> Visit(h, Binary(Equal, BoolT, l, r)) == Failed
    ensures Visit(h, l).Thrown? ==> Visit(h, Binary(Equal, BoolT, l, r)) == Thrown(Visit(h, l).ex)
  {
    var e := Binary(Equal, BoolT, l, r);
    assert Visit(h, e) == VisitBinary(h, e) == VisitEquality(h, e);
  }

  /**
    The NotEqual branch of the binary handler, which the dispatch never reaches,
    can only answer true through default equality of two object-typed operands:
    a value comparison always answers false for it.
  */
  lemma NotEqualBranchAsWritten(h: Host, lt: TypeTag, rt: TypeTag, a: Value, b: Value)
    ensures Compare(h, NotEqual, lt, rt, a, b) == Done(Bool(true)) ==>
              lt == ObjectT && rt == ObjectT && !ReferenceEquals(h, a, b) && !SameKindScalars(a, b) && h.defaultEquals(a, b)
    ensures SameKindScalars(a, b) ==> Compare(h, NotEqual, lt, rt, a, b) == Done(Bool(false))
  {
  }

  /**
    Add and Multiply: when both operands evaluate, the ladder chooses the
    operand type; no choice gives the sentinel, and otherwise both operands are
    changed to that type and the host's operator for it is applied.
  */
  lemma ArithmeticSemantics(h: Host, k: BinaryKind, ty: TypeTag, l: Expr, r: Expr, a: Value, b: Value)
    requires k in {Add, Multiply}
    requires Visit(h, l) == Done(a) && Visit(h, r) == Done(b)
    ensures Promote(TypeOf(l), TypeOf(r)).None? ==> Visit(h, Binary(k, ty, l, r)) == Failed
    ensures Promote(TypeOf(l), TypeOf(r)).Some? &&
            h.changeType(a, Promote(TypeOf(l), TypeOf(r)).value).Ok? &&
            h.changeType(b, Promote(TypeOf(l), TypeOf(r)).value).Ok? &&
            h.binaryFunc(k, Promote(TypeOf(l), TypeOf(r)).value).Some? ==>
              Visit(h, Binary(k, ty, l, r)) ==
                FromResult(h.binaryFunc(k, Promote(TypeOf(l), TypeOf(r)).value).value(
                  h.changeType(a, Promote(TypeOf(l), TypeOf(r)).value).value,
                  h.changeType(b, Promote(TypeOf(l), TypeOf(r)).value).value))
  {
    var e := Binary(k, ty, l, r);
    assert Visit(h, e) == VisitBinary(h, e) == VisitArithmetic(h, e);
  }

  // ---------------------------------------------------------------------------
  // Arguments and failure propagation
  // ---------------------------------------------------------------------------

  /** Once a prefix of the arguments fails or raises, so does the whole list, with the same outcome. */
  lemma {:induction false} ArgsPrefixStops(h: Host, args: seq<Expr>, j: nat)
    requires j <= |args|
    requires !VisitArgs(h, args[..j]).Done?
    ensures VisitArgs(h, args) == VisitArgs(h, args[..j])
    decreases |args|
  {
    if j < |args| {
      var init := args[..|args| - 1];
      assert init[..j] == args[..j];
      ArgsPrefixStops(h, init, j);
    } else {
      assert args[..j] == args;
    }
  }

  /** The arguments evaluate exactly when each one does, to the values of the individual visits. */
  lemma {:induction false} ArgsEvaluateEach(h: Host, args: seq<Expr>)
    ensures VisitArgs(h, args).Done? <==> forall i :: 0 <= i < |args| ==> Visit(h, args[i]).Done?
    ensures VisitArgs(h, args).Done? ==> forall i :: 0 <= i < |args| ==> VisitArgs(h, args).value[i] == Visit(h, args[i]).value
  {
    if args != [] {
      var init := args[..|args| - 1];
      ArgsEvaluateEach(h, init);
      assert forall i :: 0 <= i < |init| ==> init[i] == args[i];
    }
  }

  /**
    The first argument that does not evaluate decides the outcome of the list:
    its sentinel or its exception.
  */
  lemma FirstArgumentDecides(h: Host, args: seq<Expr>, i: nat)
    requires i < |args|
    requires forall j :: 0 <= j < i ==> Visit(h, args[j]).Done?
    requires !Visit(h, args[i]).Done?
    ensures Visit(h, args[i]).Failed? ==> VisitArgs(h, args) == Failed
    ensures Visit(h, args[i]).Thrown? ==> VisitArgs(h, args) == Thrown(Visit(h, args[i]).ex)
  {
    var prefix := args[..i + 1];
    assert prefix[..i] == args[..i];
    ArgsEvaluateEach(h, args[..i]);
    assert prefix[i] == args[i];
    ArgsPrefixStops(h, args, i + 1);
  }

  /** A constructor call with a constructor gives the sentinel when one of its arguments does. */
  lemma NewPropagatesFailure(h: Host, ty: TypeTag, ctor: string, args: seq<Expr>, i: nat)
    requires i < |args|
    requires forall j :: 0 <= j < i ==> Visit(h, args[j]).Done?
    requires Visit(h, args[i]).Failed?
    ensures Visit(h, New(NewNode(ty, Some(ctor), args))) == Failed
    ensures forall bs :: Visit(h, MemberInit(NewNode(ty, Some(ctor), args), bs)) == Failed
  {
    FirstArgumentDecides(h, args, i);
  }

  /** A method call whose instance gives the sentinel gives it too, whatever its arguments (none included). */
  lemma CallFailedInstance(h: Host, ty: TypeTag, instance: Expr, callee: string, args: seq<Expr>)
    requires Visit(h, instance).Failed?
    ensures Visit(h, Call(ty, Some(instance), callee, args)) == Failed
  {
    assert Visit(h, Call(ty, Some(instance), callee, args)) == VisitCall(h, Call(ty, Some(instance), callee, args));
  }

  /** A method call gives the sentinel when its instance does or when one of its arguments does. */
  lemma CallPropagatesFailure(h: Host, ty: TypeTag, instance: Expr, callee: string, args: seq<Expr>, i: nat)
    requires i < |args|
    requires forall j :: 0 <= j < i ==> Visit(h, args[j]).Done?
    requires Visit(h, args[i]).Failed?
    ensures Visit(h, instance).Failed? ==> Visit(h, Call(ty, Some(instance), callee, args)) == Failed
    ensures Visit(h, Call(ty, None, callee, args)) == Failed
    ensures Visit(h, instance).Done? ==> Visit(h, Call(ty, Some(instance), callee, args)) == Failed
  {
    FirstArgumentDecides(h, args, i);
    assert Visit(h, Call(ty, None, callee, args)) == VisitCall(h, Call(ty, None, callee, args));
    assert Visit(h, Call(ty, Some(instance), callee, args)) == VisitCall(h, Call(ty, Some(instance), callee, args));
  }

  /** A member initialiser gives the sentinel when one of its bindings does and the bindings before it all succeed on the object. */
  lemma {:induction false} BindingsPropagateFailure(h: Host, obj: Value, bs: seq<Binding>, i: nat)
    requires i < |bs|
    requires !bs[i].Assignment? || Visit(h, bs[i].expr).Failed?
    requires VisitBindings(h, obj, bs[..i]).Done?
    ensures VisitBindings(h, obj, bs) == Failed
    decreases i
  {
    if i > 0 {
      assert bs[..i][0] == bs[0] && bs[..i][1..] == bs[1..][..i - 1];
      var o' := Bind(h, obj, bs[0]).value;
      BindingsPropagateFailure(h, o', bs[1..], i - 1);
    }
  }

  /** A member access whose target gives the sentinel evaluates to the access node itself. */
  lemma MemberAccessFailedTarget(h: Host, ty: TypeTag, target: Expr, m: Member)
    requires Visit(h, target).Failed?
    ensures Visit(h, MemberAccess(ty, Some(target), m)) == Done(NodeValue(MemberAccess(ty, Some(target), m)))
  {
    assert Visit(h, MemberAccess(ty, Some(target), m)) == VisitMember(h, MemberAccess(ty, Some(target), m));
  }

  /**
    A conversion: with an operator method it gives the sentinel; otherwise a
    failed operand propagates, a null operand converts to null, and a value
    converts through the host's converter for the operand's type when that
    converter can reach the target type (and gives the sentinel when it cannot).
  */
  lemma ConvertSemantics(h: Host, ty: TypeTag, m: string, x: Expr, v: Value)
    ensures Visit(h, Unary(Convert, ty, Some(m), x)) == Failed
    ensures Visit(h, x).Failed? ==> Visit(h, Unary(Convert, ty, None, x)) == Failed
    ensures Visit(h, x) == Done(Null) ==> Visit(h, Unary(Convert, ty, None, x)) == Done(Null)
    ensures Visit(h, x) == Done(v) && v != Null ==>
              Visit(h, Unary(Convert, ty, None, x)) ==
                (if h.canConvertTo(TypeOf(x), ty) then FromResult(h.convertTo(TypeOf(x), v, ty)) else Failed)
  {
    assert Visit(h, Unary(Convert, ty, None, x)) == VisitUnary(h, Unary(Convert, ty, None, x));
  }

  // ---------------------------------------------------------------------------
  // The argument array and the bindings, step by step
  // ---------------------------------------------------------------------------

  /** Fills an argument array one visited argument at a time, stopping at the first that does not evaluate. */
  method EvaluateArguments(h: Host, args: seq<Expr>) returns (r: Eval<seq<Value>>)
    ensures r == VisitArgs(h, args)
  {
    var values := new Value[|args|](_ => Null);
    var i := 0;
    while i < |args|
      invariant 0 <= i <= |args|
      invariant VisitArgs(h, args[..i]) == Done(values[..i])
    {
      var reflected := Visit(h, args[i]);
      assert args[..i + 1][..i] == args[..i];
      if !reflected.Done? {
        ArgsPrefixStops(h, args, i + 1);
        r := if reflected.Failed? then Failed else Thrown(reflected.ex);
        return;
      }
      values[i] := reflected.value;
      assert values[..i + 1] == values[..i] + [reflected.value];
      i := i + 1;
    }
    assert args[..i] == args;
    assert values[..] == values[..i];
    r := Done(values[..]);
  }

  /** A constructor call, with its arguments gathered into an array first. */
  method InterpretNew(h: Host, n: NewNode) returns (r: Eval<Value>)
    ensures r == VisitNew(h, n)
  {
    if n.ctor.None? {
      return FromResult(h.createInstance(n.newType));
    }
    var args := EvaluateArguments(h, n.args);
    match args
    case Done(vs) => r := FromResult(h.construct(n.ctor.value, vs));
    case Failed => r := Failed;
    case Thrown(x) => r := Thrown(x);
  }

  /** A method call: the instance, then the argument array, then the invocation. */
  method InterpretCall(h: Host, e: Expr) returns (r: Eval<Value>)
    requires e.Call?
    ensures r == Visit(h, e)
  {
    var parent := if e.instance.None? then Done(Null) else Visit(h, e.instance.value);
    if !parent.Done? {
      return if parent.Failed? then Failed else Thrown(parent.ex);
    }
    var args := EvaluateArguments(h, e.args);
    match args
    case Done(vs) => r := FromResult(h.invoke(e.callee, parent.value, vs));
    case Failed => r := Failed;
    case Thrown(x) => r := Thrown(x);
  }

  /** A member initialiser: constructs the object, then stores each binding's value into it in turn. */
  method InterpretMemberInit(h: Host, e: Expr) returns (r: Eval<Value>)
    requires e.MemberInit?
    ensures r == Visit(h, e)
  {
    var created := InterpretNew(h, e.init);
    if !created.Done? {
      return if created.Failed? then Failed else Thrown(created.ex);
    }
    var obj := created.value;
    var i := 0;
    while i < |e.bindings|
      invariant 0 <= i <= |e.bindings|
      invariant VisitBindings(h, created.value, e.bindings) == VisitBindings(h, obj, e.bindings[i..])
    {
      var step := Bind(h, obj, e.bindings[i]);
      assert e.bindings[i..][1..] == e.bindings[i + 1..];
      if !step.Done? {
        return if step.Failed? then Failed else Thrown(step.ex);
      }
      obj := step.value;
      i := i + 1;
    }
    r := Done(obj);
  }
}
