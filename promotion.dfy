/**
  The operand-type selection the expression interpreter makes before it applies
  an arithmetic operator: a ladder of tests on the static types of the two
  operands, tried in a fixed order, the first one that holds choosing the type
  both operands are converted to.
*/
module NumericPromotion {
  import opened Wrappers

  /** The static types the ladder tests for, and the ones it does not know. */
  datatype TypeTag =
    | StringT | DecimalT | DoubleT | FloatT | LongT | UIntT | IntT | UShortT | ShortT | ByteT | SByteT
    | BoolT | CharT | ULongT | ObjectT | OtherT(name: string)

  /** The tests of the ladder, named after the type each one looks for, in source order. */
  datatype Rule =
    | StringRule | DecimalRule | DoubleRule | FloatRule | LongRule | UIntRule | IntRule
    | UShortRule | ShortRule | ByteRule | SByteRule | LateByteRule

  /** Position of a rule in the ladder. */
  function Rank(rule: Rule): (n: nat)
    ensures n < 12
  {
    match rule
    case StringRule => 0
    case DecimalRule => 1
    case DoubleRule => 2
    case FloatRule => 3
    case LongRule => 4
    case UIntRule => 5
    case IntRule => 6
    case UShortRule => 7
    case ShortRule => 8
    case ByteRule => 9
    case SByteRule => 10
    case LateByteRule => 11
  }

  /** The type a rule tests the operands against. */
  function RuleType(rule: Rule): TypeTag
  {
    match rule
    case StringRule => StringT
    case DecimalRule => DecimalT
    case DoubleRule => DoubleT
    case FloatRule => FloatT
    case LongRule => LongT
    case UIntRule => UIntT
    case IntRule => IntT
    case UShortRule => UShortT
    case ShortRule => ShortT
    case ByteRule => ByteT
    case SByteRule => SByteT
    case LateByteRule => ByteT
  }

  /** A rule's test holds when either operand has the type the rule looks for. */
  predicate Matches(rule: Rule, left: TypeTag, right: TypeTag)
  {
    left == RuleType(rule) || right == RuleType(rule)
  }

  /** The type a matching rule converts both operands to. */
  function Selected(rule: Rule, left: TypeTag, right: TypeTag): TypeTag
  {
    match rule
    case UIntRule => if left == UIntT && right == UIntT then UIntT else LongT
    case UShortRule => if left == UShortT && right == UShortT then UShortT else IntT
    case SByteRule => IntT
    case LateByteRule => IntT
    case _ => RuleType(rule)
  }

  /** The ladder as the source writes it: an if-else chain whose first true test wins. */
  function FirstMatch(left: TypeTag, right: TypeTag): (r: Option<Rule>)
    ensures r.Some? ==> Matches(r.value, left, right)
  {
    if left == StringT || right == StringT then Some(StringRule)
    else if left == DecimalT || right == DecimalT then Some(DecimalRule)
    else if left == DoubleT || right == DoubleT then Some(DoubleRule)
    else if left == FloatT || right == FloatT then Some(FloatRule)
    else if left == LongT || right == LongT then Some(LongRule)
    else if left == UIntT || right == UIntT then Some(UIntRule)
    else if left == IntT || right == IntT then Some(IntRule)
    else if left == UShortT || right == UShortT then Some(UShortRule)
    else if left == ShortT || right == ShortT then Some(ShortRule)
    else if left == ByteT || right == ByteT then Some(ByteRule)
    else if left == SByteT || right == SByteT then Some(SByteRule)
    else if left == ByteT || right == ByteT then Some(LateByteRule)
    else None
  }

  /** The operand type chosen for an arithmetic node, or None when the interpreter gives up. */
  function Promote(left: TypeTag, right: TypeTag): Option<TypeTag>
  {
    match FirstMatch(left, right)
    case None => None
    case Some(rule) => Some(Selected(rule, left, right))
  }

  /** A type some rule of the ladder tests for. */
  predicate IsLadderType(t: TypeTag)
  {
    t in {StringT, DecimalT, DoubleT, FloatT, LongT, UIntT, IntT, UShortT, ShortT, ByteT, SByteT}
  }

  // ---------------------------------------------------------------------------
  // Properties of the ladder
  // ---------------------------------------------------------------------------

  /**
    The chain picks the first rule, in ladder order, whose test holds; and it
    picks none exactly when no rule's test holds.
  */
  lemma FirstMatchIsFirst(left: TypeTag, right: TypeTag)
    ensures FirstMatch(left, right).Some? ==>
      forall k :: Rank(k) < Rank(FirstMatch(left, right).value) ==> !Matches(k, left, right)
    ensures FirstMatch(left, right).None? <==> forall k :: !Matches(k, left, right)
  {
  }

  /** The second byte test can never be the first that holds: the earlier byte test holds whenever it does. */
  lemma LateByteRuleUnreachable(left: TypeTag, right: TypeTag)
    ensures FirstMatch(left, right) != Some(LateByteRule)
    ensures Matches(LateByteRule, left, right) ==> Matches(ByteRule, left, right)
  {
  }

  /** Nothing is selected exactly when neither operand has a type of the ladder. */
  lemma PromoteUndefined(left: TypeTag, right: TypeTag)
    ensures Promote(left, right).None? <==> !IsLadderType(left) && !IsLadderType(right)
  {
  }

  /** The order of the operands does not matter. */
  lemma PromoteSymmetric(left: TypeTag, right: TypeTag)
    ensures Promote(left, right) == Promote(right, left)
  {
    assert FirstMatch(left, right) == FirstMatch(right, left);
    if FirstMatch(left, right).Some? {
      var rule := FirstMatch(left, right).value;
      assert Selected(rule, left, right) == Selected(rule, right, left);
    }
  }

  /** uint stays uint only when both operands are uint; otherwise, when nothing earlier applies, both widen to long. */
  lemma PromoteUIntWidens(t: TypeTag)
    ensures Promote(UIntT, UIntT) == Some(UIntT)
    ensures t in {IntT, UShortT, ShortT, ByteT, SByteT, BoolT, CharT, ULongT, ObjectT} || t.OtherT? ==>
              Promote(UIntT, t) == Some(LongT)
  {
  }

  /** ushort stays ushort only in pairs; otherwise, when nothing earlier applies, both widen to int. */
  lemma PromoteUShortWidens(t: TypeTag)
    ensures Promote(UShortT, UShortT) == Some(UShortT)
    ensures t in {ShortT, ByteT, SByteT, BoolT, CharT, ULongT, ObjectT} || t.OtherT? ==>
              Promote(UShortT, t) == Some(IntT)
  {
  }

  /** sbyte always widens to int, and byte with byte or sbyte stays byte. */
  lemma PromoteSmallTypes()
    ensures Promote(SByteT, SByteT) == Some(IntT)
    ensures Promote(ByteT, ByteT) == Some(ByteT) && Promote(ByteT, SByteT) == Some(ByteT)
  {
  }

  /** The selected type is the type of one of the operands or a widening to long or int. */
  lemma PromoteSelectsOperandOrWider(left: TypeTag, right: TypeTag)
    requires Promote(left, right).Some?
    ensures Promote(left, right).value in {left, right, LongT, IntT}
    ensures Promote(left, right).value in {LongT, IntT} && Promote(left, right).value !in {left, right} ==>
              left in {UIntT, UShortT, SByteT} || right in {UIntT, UShortT, SByteT}
  {
  }
}
