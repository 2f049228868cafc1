/** `IdKit`: whether an id value counts as set. */
module IdKit {
  import opened Wrappers
  import opened JavaValues

  /** `StringConstant.ID_DEFAULT_VALUES`: null, "" and "0". */
  const ID_DEFAULT_VALUES: seq<Option<string>> := [None, Some(""), Some("0")]

  /** `isIdEffective`: a number is set when its `longValue()` is not 0, a
      string when it is not one of the default values; null and every other
      type are not. */
  predicate IsIdEffective(id: Value) {
    match id
    case Null => false
    case Num(n) => WrapLong(n) != 0
    case Str(s) => Some(s) !in ID_DEFAULT_VALUES
    case _ => false
  }

  predicate IsIdNotEffective(id: Value)
    ensures IsIdNotEffective(id) <==> !IsIdEffective(id)
  {
    !IsIdEffective(id)
  }

  /** The rule, case by case. */
  lemma IdEffectiveCases(id: Value)
    ensures id.Null? ==> !IsIdEffective(id)
    ensures id.Num? && LONG_MIN <= id.n <= LONG_MAX ==> (IsIdEffective(id) <==> id.n != 0)
    ensures id.Str? ==> (IsIdEffective(id) <==> id.s != "" && id.s != "0")
    ensures !id.Num? && !id.Str? ==> !IsIdEffective(id)
  {
    if id.Str? {
      assert Some(id.s) in ID_DEFAULT_VALUES <==> id.s == "" || id.s == "0";
    }
  }

  /** `longValue()` keeps the low 64 bits, so a number that is a multiple of
      2^64 reads as 0 and is not effective. */
  lemma WideZeroIsNotEffective()
    ensures !IsIdEffective(Num(0x1_0000_0000_0000_0000))
  {
  }
}
