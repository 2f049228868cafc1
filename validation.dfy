/** `ValidationStrategy`: the predicates that decide whether a property's
    value is worth writing. */
module Validation {
  import opened JavaValues

  datatype ValidationStrategy = DEFAULT | NOT_CHECK | NOT_NULL | NOT_EMPTY

  /** `isEffective`: `DEFAULT` and `NOT_CHECK` accept everything, `NOT_NULL`
      every non-null value, `NOT_EMPTY` every value `ObjectUtils.isEmpty`
      rejects. */
  predicate IsEffective(strategy: ValidationStrategy, value: Value) {
    match strategy
    case DEFAULT => true
    case NOT_CHECK => true
    case NOT_NULL => !value.Null?
    case NOT_EMPTY => !IsEmptyObject(value)
  }

  predicate IsNotEffective(strategy: ValidationStrategy, value: Value)
    ensures IsNotEffective(strategy, value) <==> !IsEffective(strategy, value)
  {
    !IsEffective(strategy, value)
  }

  /** What each strategy accepts, stated without the strategy's body. */
  lemma StrategiesAccept(value: Value)
    ensures IsEffective(DEFAULT, value) && IsEffective(NOT_CHECK, value)
    ensures IsEffective(NOT_NULL, value) <==> value != Null
    ensures IsEffective(NOT_EMPTY, value) ==> value != Null && value != Str("") && !(value.Collection? && value.items == [])
    ensures value.Num? || value.Bool? || value.Pair? || value.Other? ==> IsEffective(NOT_EMPTY, value)
  {
  }

  /** The strategies are ordered: whatever `NOT_EMPTY` accepts `NOT_NULL`
      accepts, and whatever `NOT_NULL` accepts `NOT_CHECK` accepts. */
  lemma StrategiesNest(value: Value)
    ensures IsEffective(NOT_EMPTY, value) ==> IsEffective(NOT_NULL, value)
    ensures IsEffective(NOT_NULL, value) ==> IsEffective(NOT_CHECK, value)
  {
  }
}
