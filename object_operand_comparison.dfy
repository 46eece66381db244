/**
  The object-operand comparison expander: a rewrite pass that turns a
  comparison between two whole mapped objects, and a null test on a whole
  object, into comparisons of the objects' primary-key columns, and turns a
  null test on a projection sub-query into EXISTS / NOT EXISTS.

  Whether a property is part of the primary key, and whether one object type
  is assignable to another, belong to the type-mapping layer: the first is a
  flag on each bound member, the second is the `assignable` parameter.
*/
module ObjectOperandComparison {
  import opened Wrappers
  import Kinds = SqlExpressionTypes

  type TypeName = string

  /** A bound member: its name, whether it is a property (rather than a field) and whether it is a primary-key property. */
  datatype Member = Member(name: string, isProperty: bool, isPrimaryKey: bool)

  /** A member binding of an object construction; only assignments carry a value expression. */
  datatype Binding =
    | Assignment(member: Member, value: Expr)
    | OtherBinding(member: Member)

  datatype SqlFunction = IsNull | IsNotNull | Exists | OtherFunction(name: string)

  datatype BinaryOp = Equal | NotEqual | And | AndAlso | OrElse | LessThan | GreaterThan | Add | OtherOp(name: string)

  /** The node kinds this pass looks at, and the scalar expressions it only passes through. */
  datatype Expr =
    | NullExpr
    | Leaf(name: string, ty: TypeName)
    | MemberInit(ty: TypeName, bindings: seq<Binding>)
    | ObjectReference(ty: TypeName, bindings: seq<Binding>)
    | Projection(select: Expr, projector: Expr, aggregator: Expr, isElementTableProjection: bool)
    | FunctionCall(ty: TypeName, fn: SqlFunction, args: seq<Expr>)
    | Binary(op: BinaryOp, left: Expr, right: Expr)
    | Not(operand: Expr)

  /** The node-type discriminator: general expression kinds and SQL-specific kinds share one space. */
  datatype NodeKind = LinqMemberInit | LinqBinary(op: BinaryOp) | LinqNot | LinqOther | Sql(kind: Kinds.SqlExpressionType)

  datatype Error = NotSupported(message: string)

  const BooleanType: TypeName := "Boolean"

  function NodeType(e: Expr): NodeKind
  {
    match e
    case MemberInit(_, _) => LinqMemberInit
    case ObjectReference(_, _) => Sql(Kinds.ObjectReference)
    case Projection(_, _, _, _) => Sql(Kinds.Projection)
    case FunctionCall(_, _, _) => Sql(Kinds.FunctionCall)
    case Binary(op, _, _) => LinqBinary(op)
    case Not(_) => LinqNot
    case _ => LinqOther
  }

  /** The operand kinds whose comparison the pass expands: object constructions and object references. */
  predicate IsObjectOperand(e: Expr)
    ensures IsObjectOperand(e) <==> e.MemberInit? || e.ObjectReference?
  {
    NodeType(e) == Sql(Kinds.ObjectReference) || NodeType(e) == LinqMemberInit
  }

  function OpName(op: BinaryOp): string
  {
    match op
    case Equal => "Equal"
    case NotEqual => "NotEqual"
    case And => "And"
    case AndAlso => "AndAlso"
    case OrElse => "OrElse"
    case LessThan => "LessThan"
    case GreaterThan => "GreaterThan"
    case Add => "Add"
    case OtherOp(name) => name
  }

  // ---------------------------------------------------------------------
  // Primary-key decomposition
  // ---------------------------------------------------------------------

  /** A binding that contributes to the key of an object construction: an assignment to a primary-key property. */
  predicate IsKeyAssignment(b: Binding)
  {
    b.Assignment? && b.member.isProperty && b.member.isPrimaryKey
  }

  /**
    The primary-key elemental expressions of an expression. For an object
    construction: the values of its primary-key property assignments, in
    binding order; for an object reference: the values of all its (flattened)
    assignments; a value that is itself an object is decomposed in turn.
    Anything else has none.
  */
  function PrimaryKeyElements(e: Expr): (r: seq<Expr>)
    ensures !IsObjectOperand(e) ==> r == []
    decreases e, 1
  {
    match e
    case MemberInit(_, bs) => BindingElements(bs, true)
    case ObjectReference(_, bs) => BindingElements(bs, false)
    case _ => []
  }

  function BindingElements(bs: seq<Binding>, keysOnly: bool): seq<Expr>
    decreases bs, 0
  {
    if bs == [] then []
    else
      var rest := BindingElements(bs[1..], keysOnly);
      match bs[0]
      case Assignment(m, v) =>
        assert v < bs[0];
        if !keysOnly || IsKeyAssignment(bs[0]) then ValueElements(v) + rest else rest
      case OtherBinding(_) => rest
  }

  function ValueElements(v: Expr): seq<Expr>
    decreases v, 2
  {
    if IsObjectOperand(v) then PrimaryKeyElements(v) else [v]
  }

  /** Decomposition bottoms out at scalars: no key element is itself an object. */
  lemma {:induction false} KeyElementsAreScalar(e: Expr)
    ensures forall x :: x in PrimaryKeyElements(e) ==> !IsObjectOperand(x)
    decreases e, 1
  {
    match e
    case MemberInit(_, bs) => BindingElementsAreScalar(bs, true);
    case ObjectReference(_, bs) => BindingElementsAreScalar(bs, false);
    case _ =>
  }

  lemma {:induction false} BindingElementsAreScalar(bs: seq<Binding>, keysOnly: bool)
    ensures forall x :: x in BindingElements(bs, keysOnly) ==> !IsObjectOperand(x)
    decreases bs, 0
  {
    if bs != [] {
      BindingElementsAreScalar(bs[1..], keysOnly);
      match bs[0]
      case Assignment(m, v) =>
        assert v < bs[0];
        if IsObjectOperand(v) { KeyElementsAreScalar(v); }
      case OtherBinding(_) =>
    }
  }

  /** The values of the primary-key property assignments, in binding order (no decomposition). */
  function KeyValues(bs: seq<Binding>): (r: seq<Expr>)
    ensures |r| <= |bs|
  {
    if bs == [] then []
    else if IsKeyAssignment(bs[0]) then [bs[0].value] + KeyValues(bs[1..])
    else KeyValues(bs[1..])
  }

  /** The values of all assignments, in binding order (no decomposition). */
  function AssignedValues(bs: seq<Binding>): (r: seq<Expr>)
    ensures |r| <= |bs|
  {
    if bs == [] then []
    else if bs[0].Assignment? then [bs[0].value] + AssignedValues(bs[1..])
    else AssignedValues(bs[1..])
  }

  predicate ScalarValued(bs: seq<Binding>)
  {
    forall i :: 0 <= i < |bs| && bs[i].Assignment? ==> !IsObjectOperand(bs[i].value)
  }

  /**
    For an object construction whose assigned values are scalars, the key
    elements are exactly the primary-key property assignments' values, in
    binding order; every other binding is skipped.
  */
  lemma {:induction false} FlatMemberInitKeys(ty: TypeName, bs: seq<Binding>)
    requires ScalarValued(bs)
    ensures PrimaryKeyElements(MemberInit(ty, bs)) == KeyValues(bs)
  {
    FlatBindingElements(bs);
  }

  /**
    For an object reference whose assigned values are scalars, the key elements
    are all assigned values, in order: no primary-key filter applies.
  */
  lemma {:induction false} FlatObjectReferenceKeys(ty: TypeName, bs: seq<Binding>)
    requires ScalarValued(bs)
    ensures PrimaryKeyElements(ObjectReference(ty, bs)) == AssignedValues(bs)
  {
    FlatBindingElements(bs);
  }

  lemma {:induction false} FlatBindingElements(bs: seq<Binding>)
    requires ScalarValued(bs)
    ensures BindingElements(bs, true) == KeyValues(bs)
    ensures BindingElements(bs, false) == AssignedValues(bs)
  {
    if bs != [] {
      assert ScalarValued(bs[1..]) by {
        forall i | 0 <= i < |bs[1..]| && bs[1..][i].Assignment?
          ensures !IsObjectOperand(bs[1..][i].value)
        {
          assert bs[1..][i] == bs[i + 1];
        }
      }
      FlatBindingElements(bs[1..]);
    }
  }

  /**
    Every key element of an object construction comes from one of its
    primary-key property assignments: it is that assignment's value, or one of
    the key elements of that value.
  */
  lemma {:induction false} MemberInitKeysComeFromKeyBindings(ty: TypeName, bs: seq<Binding>, x: Expr)
    requires x in PrimaryKeyElements(MemberInit(ty, bs))
    ensures exists i :: 0 <= i < |bs| && IsKeyAssignment(bs[i]) && (x == bs[i].value || x in PrimaryKeyElements(bs[i].value))
  {
    BindingElementsOrigin(bs, true, x);
  }

  lemma {:induction false} BindingElementsOrigin(bs: seq<Binding>, keysOnly: bool, x: Expr)
    requires x in BindingElements(bs, keysOnly)
    ensures exists i :: 0 <= i < |bs| && bs[i].Assignment? && (!keysOnly || IsKeyAssignment(bs[i]))
                        && (x == bs[i].value || x in PrimaryKeyElements(bs[i].value))
  {
    var rest := BindingElements(bs[1..], keysOnly);
    if x in rest {
      BindingElementsOrigin(bs[1..], keysOnly, x);
      var j :| 0 <= j < |bs[1..]| && bs[1..][j].Assignment? && (!keysOnly || IsKeyAssignment(bs[1..][j]))
               && (x == bs[1..][j].value || x in PrimaryKeyElements(bs[1..][j].value));
      assert bs[1..][j] == bs[j + 1];
    } else {
      assert bs[0].Assignment? && (!keysOnly || IsKeyAssignment(bs[0]));
      assert x in ValueElements(bs[0].value);
    }
  }

  // ---------------------------------------------------------------------
  // Zip and the And-chain fold
  // ---------------------------------------------------------------------

  /** LINQ's Zip: pairs elements position by position and stops at the end of the shorter input. */
  function Zip(a: seq<Expr>, b: seq<Expr>): (r: seq<(Expr, Expr)>)
    ensures |r| == if |a| <= |b| then |a| else |b|
    ensures forall i :: 0 <= i < |r| ==> r[i] == (a[i], b[i])
  {
    if a == [] || b == [] then [] else [(a[0], b[0])] + Zip(a[1..], b[1..])
  }

  /**
    The fold of the rewrite loops: the first term alone, then each further term
    joined on the right with And; null when there are no terms.
  */
  function AndChain(terms: seq<Expr>): (r: Expr)
    ensures terms == [] ==> r == NullExpr
    ensures |terms| == 1 ==> r == terms[0]
    decreases |terms|
  {
    if terms == [] then NullExpr
    else if |terms| == 1 then terms[0]
    else Binary(And, AndChain(terms[..|terms| - 1]), terms[|terms| - 1])
  }

  /** The terms of a left-associated And spine. */
  function Conjuncts(e: Expr): seq<Expr>
  {
    if e.Binary? && e.op == And then Conjuncts(e.left) + [e.right] else [e]
  }

  predicate NoAndTerms(terms: seq<Expr>)
  {
    forall i :: 0 <= i < |terms| ==> !(terms[i].Binary? && terms[i].op == And)
  }

  /** Splitting the built chain back at its And nodes gives the terms, in order. */
  lemma {:induction false} ConjunctsOfAndChain(terms: seq<Expr>)
    requires terms != [] && NoAndTerms(terms)
    ensures Conjuncts(AndChain(terms)) == terms
    decreases |terms|
  {
    if |terms| > 1 {
      var init := terms[..|terms| - 1];
      assert NoAndTerms(init) by {
        forall i | 0 <= i < |init| ensures !(init[i].Binary? && init[i].op == And) {
          assert init[i] == terms[i];
        }
      }
      ConjunctsOfAndChain(init);
      assert init + [terms[|terms| - 1]] == terms;
    }
  }

  /** The per-pair comparisons of the key elements of two operands. */
  function PairComparisons(op: BinaryOp, pairs: seq<(Expr, Expr)>): (r: seq<Expr>)
    ensures |r| == |pairs|
    ensures forall i :: 0 <= i < |r| ==> r[i] == Binary(op, pairs[i].0, pairs[i].1)
  {
    if pairs == [] then [] else [Binary(op, pairs[0].0, pairs[0].1)] + PairComparisons(op, pairs[1..])
  }

  /** The same function applied to each key element on its own. */
  function PerElementCalls(ty: TypeName, f: SqlFunction, elements: seq<Expr>): (r: seq<Expr>)
    ensures |r| == |elements|
    ensures forall i :: 0 <= i < |r| ==> r[i] == FunctionCall(ty, f, [elements[i]])
  {
    if elements == [] then [] else [FunctionCall(ty, f, [elements[0]])] + PerElementCalls(ty, f, elements[1..])
  }

  // ---------------------------------------------------------------------
  // The rewrite
  // ---------------------------------------------------------------------

  /** Whether a binary node compares two object operands of compatible types. */
  predicate IsObjectComparison(assignable: (TypeName, TypeName) -> bool, op: BinaryOp, l: Expr, r: Expr)
  {
    IsObjectOperand(l) && IsObjectOperand(r) && (assignable(l.ty, r.ty) || assignable(r.ty, l.ty))
  }

  /** Whether a function call is a single-argument IS NULL / IS NOT NULL. */
  predicate IsNullTest(f: SqlFunction, args: seq<Expr>)
  {
    |args| == 1 && (f == IsNotNull || f == IsNull)
  }

  /** The pass: every node goes to its handler; other nodes get their children visited. */
  function Visit(assignable: (TypeName, TypeName) -> bool, e: Expr): Result<Expr, Error>
    decreases e, 1
  {
    match e
    case NullExpr => Ok(NullExpr)
    case Leaf(_, _) => Ok(e)
    case MemberInit(ty, bs) =>
      var bs' :- VisitBindings(assignable, bs);
      Ok(MemberInit(ty, bs'))
    case ObjectReference(ty, bs) =>
      var bs' :- VisitBindings(assignable, bs);
      Ok(ObjectReference(ty, bs'))
    case Projection(_, _, _, _) => VisitProjection(assignable, e)
    case FunctionCall(_, _, _) => VisitFunctionCall(assignable, e)
    case Binary(_, _, _) => VisitBinary(assignable, e)
    case Not(x) =>
      var x' :- Visit(assignable, x);
      Ok(Not(x'))
  }

  function VisitAll(assignable: (TypeName, TypeName) -> bool, es: seq<Expr>): (r: Result<seq<Expr>, Error>)
    ensures r.Ok? ==> |r.value| == |es|
    decreases es, 0
  {
    if es == [] then Ok([])
    else
      var x :- Visit(assignable, es[0]);
      var xs :- VisitAll(assignable, es[1..]);
      Ok([x] + xs)
  }

  function VisitBindings(assignable: (TypeName, TypeName) -> bool, bs: seq<Binding>): Result<seq<Binding>, Error>
    decreases bs, 0
  {
    if bs == [] then Ok([])
    else
      var b :- match bs[0]
        case Assignment(m, v) =>
          assert v < bs[0];
          (var v' :- Visit(assignable, v); Ok(Assignment(m, v')))
        case OtherBinding(m) => Ok(OtherBinding(m));
      var rest :- VisitBindings(assignable, bs[1..]);
      Ok([b] + rest)
  }

  /** A projection is rebuilt only when its select, projector or aggregator changed. */
  function VisitProjection(assignable: (TypeName, TypeName) -> bool, p: Expr): Result<Expr, Error>
    requires p.Projection?
    decreases p, 0
  {
    var sel' :- Visit(assignable, p.select);
    var proj' :- Visit(assignable, p.projector);
    var agg' :- Visit(assignable, p.aggregator);
    if sel' != p.select || proj' != p.projector || agg' != p.aggregator then
      Ok(Projection(sel', proj', agg', p.isElementTableProjection))
    else Ok(p)
  }

  /**
    IS NULL / IS NOT NULL on a whole object becomes the same test on every key
    element joined by And (the argument itself is not visited); on a projection
    it becomes EXISTS of the visited projection, negated for IS NULL.
  */
  function VisitFunctionCall(assignable: (TypeName, TypeName) -> bool, call: Expr): Result<Expr, Error>
    requires call.FunctionCall?
    decreases call, 0
  {
    var FunctionCall(ty, f, args) := call;
    if IsNullTest(f, args) && IsObjectOperand(args[0]) then
      Ok(AndChain(PerElementCalls(ty, f, PrimaryKeyElements(args[0]))))
    else if IsNullTest(f, args) && NodeType(args[0]) == Sql(Kinds.Projection) then
      var p :- Visit(assignable, args[0]);
      var ex := FunctionCall(BooleanType, Exists, [p]);
      Ok(if f == IsNull then Not(ex) else ex)
    else
      var args' :- VisitAll(assignable, args);
      Ok(FunctionCall(ty, f, args'))
  }

  /**
    == / != between two object operands of assignable types: both operands are
    visited, their key elements zipped, and the per-pair comparisons joined by
    And. Any other operator is rejected as soon as there is a first pair.
  */
  function VisitBinary(assignable: (TypeName, TypeName) -> bool, b: Expr): Result<Expr, Error>
    requires b.Binary?
    decreases b, 0
  {
    var Binary(op, l, r) := b;
    if IsObjectComparison(assignable, op, l, r) then
      var l' :- Visit(assignable, l);
      var r' :- Visit(assignable, r);
      var pairs := Zip(PrimaryKeyElements(l'), PrimaryKeyElements(r'));
      if pairs != [] && op != Equal && op != NotEqual then
        Err(NotSupported("Operation on DataAccessObject with " + OpName(op) + " not supported"))
      else
        Ok(AndChain(PairComparisons(op, pairs)))
    else
      var l' :- Visit(assignable, l);
      var r' :- Visit(assignable, r);
      Ok(Binary(op, l', r'))
  }

  /** The pass's entry point. */
  function Expand(assignable: (TypeName, TypeName) -> bool, e: Expr): Result<Expr, Error>
  {
    Visit(assignable, e)
  }

  // ---------------------------------------------------------------------
  // Properties of the rewrite
  // ---------------------------------------------------------------------

  /**
    Expanding == or != between two object operands: the result is an And-chain
    whose terms are the per-pair comparisons of the visited operands' key
    elements, one term per pair, as many as the shorter key sequence has (the
    longer one is silently truncated); with no pairs the result is null.
  */
  lemma ExpandObjectEquality(assignable: (TypeName, TypeName) -> bool, op: BinaryOp, l: Expr, r: Expr, l': Expr, r': Expr)
    requires IsObjectComparison(assignable, op, l, r) && (op == Equal || op == NotEqual)
    requires Visit(assignable, l) == Ok(l') && Visit(assignable, r) == Ok(r')
    ensures var kl, kr := PrimaryKeyElements(l'), PrimaryKeyElements(r');
            var n := if |kl| <= |kr| then |kl| else |kr|;
            && Expand(assignable, Binary(op, l, r)).Ok?
            && (n == 0 ==> Expand(assignable, Binary(op, l, r)).value == NullExpr)
            && (n > 0 ==>
                  var terms := Conjuncts(Expand(assignable, Binary(op, l, r)).value);
                  |terms| == n && forall i :: 0 <= i < n ==> terms[i] == Binary(op, kl[i], kr[i]))
  {
    var b := Binary(op, l, r);
    assert Expand(assignable, b) == VisitBinary(assignable, b);
    var pairs := Zip(PrimaryKeyElements(l'), PrimaryKeyElements(r'));
    var cmps := PairComparisons(op, pairs);
    if pairs != [] {
      ConjunctsOfAndChain(cmps);
    }
  }

  /**
    Any other operator between two object operands fails, naming the operator,
    but only when there is at least one key pair; with none the result is null.
  */
  lemma ExpandObjectOtherOperator(assignable: (TypeName, TypeName) -> bool, op: BinaryOp, l: Expr, r: Expr, l': Expr, r': Expr)
    requires IsObjectComparison(assignable, op, l, r) && op != Equal && op != NotEqual
    requires Visit(assignable, l) == Ok(l') && Visit(assignable, r) == Ok(r')
    ensures PrimaryKeyElements(l') != [] && PrimaryKeyElements(r') != [] ==>
              Expand(assignable, Binary(op, l, r)) == Err(NotSupported("Operation on DataAccessObject with " + OpName(op) + " not supported"))
    ensures PrimaryKeyElements(l') == [] || PrimaryKeyElements(r') == [] ==>
              Expand(assignable, Binary(op, l, r)) == Ok(NullExpr)
  {
    var b := Binary(op, l, r);
    assert Expand(assignable, b) == VisitBinary(assignable, b);
  }

  /** A binary node that is not an object comparison keeps its operator; only its operands are rewritten. */
  lemma PassThroughBinary(assignable: (TypeName, TypeName) -> bool, op: BinaryOp, l: Expr, r: Expr)
    requires !IsObjectComparison(assignable, op, l, r)
    requires Visit(assignable, l).Ok? && Visit(assignable, r).Ok?
    ensures Expand(assignable, Binary(op, l, r)) == Ok(Binary(op, Visit(assignable, l).value, Visit(assignable, r).value))
  {
    var b := Binary(op, l, r);
    assert Expand(assignable, b) == VisitBinary(assignable, b);
  }

  /**
    IS NULL / IS NOT NULL on an object: an And-chain (And for both tests) with
    one test per key element of the unvisited argument, in key order.
  */
  lemma ExpandObjectNullTest(assignable: (TypeName, TypeName) -> bool, ty: TypeName, f: SqlFunction, arg: Expr)
    requires f == IsNull || f == IsNotNull
    requires IsObjectOperand(arg)
    ensures var keys := PrimaryKeyElements(arg);
            && Expand(assignable, FunctionCall(ty, f, [arg])).Ok?
            && (keys == [] ==> Expand(assignable, FunctionCall(ty, f, [arg])).value == NullExpr)
            && (keys != [] ==>
                  var terms := Conjuncts(Expand(assignable, FunctionCall(ty, f, [arg])).value);
                  |terms| == |keys| && forall i :: 0 <= i < |keys| ==> terms[i] == FunctionCall(ty, f, [keys[i]]))
  {
    var call := FunctionCall(ty, f, [arg]);
    assert Expand(assignable, call) == VisitFunctionCall(assignable, call);
    var keys := PrimaryKeyElements(arg);
    if keys != [] {
      ConjunctsOfAndChain(PerElementCalls(ty, f, keys));
    }
  }

  /** IS NULL on a projection becomes NOT EXISTS of the visited projection; IS NOT NULL becomes EXISTS. */
  lemma ExpandProjectionNullTest(assignable: (TypeName, TypeName) -> bool, ty: TypeName, f: SqlFunction, p: Expr)
    requires f == IsNull || f == IsNotNull
    requires p.Projection? && Visit(assignable, p).Ok?
    ensures var ex := FunctionCall(BooleanType, Exists, [Visit(assignable, p).value]);
            Expand(assignable, FunctionCall(ty, f, [p])) == Ok(if f == IsNull then Not(ex) else ex)
  {
    var call := FunctionCall(ty, f, [p]);
    assert Expand(assignable, call) == VisitFunctionCall(assignable, call);
  }

  /** A projection whose parts the pass leaves alone comes back as it was. */
  lemma ProjectionUnchanged(assignable: (TypeName, TypeName) -> bool, p: Expr)
    requires p.Projection?
    requires Visit(assignable, p.select) == Ok(p.select)
    requires Visit(assignable, p.projector) == Ok(p.projector)
    requires Visit(assignable, p.aggregator) == Ok(p.aggregator)
    ensures Expand(assignable, p) == Ok(p)
  {
    assert Expand(assignable, p) == VisitProjection(assignable, p);
  }

  /**
    The worked example: two Person objects whose only primary key is Id expand
    to the single comparison personA.Id == personB.Id.
  */
  lemma PersonExample(assignable: (TypeName, TypeName) -> bool)
    requires assignable("Person", "Person")
    ensures var id := Member("Id", true, true);
            var name := Member("Name", true, false);
            var a := MemberInit("Person", [Assignment(id, Leaf("personA.Id", "Int32")), Assignment(name, Leaf("personA.Name", "String"))]);
            var b := MemberInit("Person", [Assignment(id, Leaf("personB.Id", "Int32")), Assignment(name, Leaf("personB.Name", "String"))]);
            Expand(assignable, Binary(Equal, a, b)) == Ok(Binary(Equal, Leaf("personA.Id", "Int32"), Leaf("personB.Id", "Int32")))
  {
    var id := Member("Id", true, true);
    var name := Member("Name", true, false);
    var a := MemberInit("Person", [Assignment(id, Leaf("personA.Id", "Int32")), Assignment(name, Leaf("personA.Name", "String"))]);
    var b := MemberInit("Person", [Assignment(id, Leaf("personB.Id", "Int32")), Assignment(name, Leaf("personB.Name", "String"))]);
    LeafBindingsUnchanged(assignable, a.bindings);
    LeafBindingsUnchanged(assignable, b.bindings);
    assert Expand(assignable, Binary(Equal, a, b)) == VisitBinary(assignable, Binary(Equal, a, b));
    FlatMemberInitKeys("Person", a.bindings);
    FlatMemberInitKeys("Person", b.bindings);
  }

  /** Visiting bindings whose values are all leaves changes nothing. */
  lemma {:induction false} LeafBindingsUnchanged(assignable: (TypeName, TypeName) -> bool, bs: seq<Binding>)
    requires forall i :: 0 <= i < |bs| && bs[i].Assignment? ==> bs[i].value.Leaf?
    ensures VisitBindings(assignable, bs) == Ok(bs)
  {
    if bs != [] {
      LeafBindingsUnchanged(assignable, bs[1..]);
      assert [bs[0]] + bs[1..] == bs;
    }
  }
}
