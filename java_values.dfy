/** The slice of the Java object world that the modelled code inspects with
    `instanceof` and prints with `toString()`, and the exceptions it throws. */
module JavaValues {
  import opened Wrappers

  /** An `Object` as the modelled code sees it. `Num` is an integral
      `java.lang.Number`, `Collection` a `java.util.Collection` (iterated in
      order, `isList` when it is a `java.util.List`), `Pair` Spring Data's `Pair`, `Array` an `Object[]` together with
      its identity-based `toString()`, `Optional` a `java.util.Optional`, `Map`
      a `java.util.Map`, and `Other` any other object with its `toString()`. */
  datatype Value =
    | Null
    | Num(n: int)
    | Str(s: string)
    | Bool(b: bool)
    | Collection(items: seq<Value>, isList: bool)
    | Pair(first: Value, second: Value)
    | Array(elements: seq<Value>, identity: string)
    | Optional(content: Option<Value>)
    | Map(entries: seq<(Value, Value)>)
    | Other(text: string)

  /** The exceptions thrown by the modelled code. */
  datatype Failure =
    | IllegalArgument(message: string)
    | IllegalState(message: string)
    | NullPointer
    | UnsupportedOperation(message: string)
    | InvalidDataAccessApiUsage(message: string)
    | OptimisticLockingFailure(message: string)
    | TransientDataAccessResource(message: string)
    | IncorrectResultSize(expectedSize: int)
    | Arithmetic
    | IndexOutOfBounds
    | ClassCast
    | Runtime(message: string)

  type Outcome<T> = Result<T, Failure>

  predicate IsDigit(c: char) { '0' <= c <= '9' }

  function DigitChar(d: nat): (c: char)
    requires d < 10
    ensures IsDigit(c) && c as int - '0' as int == d
  {
    ('0' as int + d) as char
  }

  /** Decimal digits of a natural number, as `Long.toString` prints them. */
  function NatToString(n: nat): (r: string)
    ensures |r| > 0 && forall i :: 0 <= i < |r| ==> IsDigit(r[i])
    decreases n
  {
    if n < 10 then [DigitChar(n)] else NatToString(n / 10) + [DigitChar(n % 10)]
  }

  /** `Long.toString(n)`: a leading '-' for negative numbers. */
  function IntToString(n: int): (r: string)
    ensures |r| > 0
  {
    if n < 0 then "-" + NatToString(-n) else NatToString(n)
  }

  /** Reads back a string of decimal digits (the partner of `NatToString`). */
  function ParseDigits(s: string): nat
    requires forall i :: 0 <= i < |s| ==> IsDigit(s[i])
  {
    if |s| == 0 then 0
    else
      assert IsDigit(s[|s| - 1]);
      ParseDigits(s[..|s| - 1]) * 10 + (s[|s| - 1] as int - '0' as int)
  }

  function ParseInt(s: string): (n: int)
    requires |s| > 0
    requires forall i :: (if s[0] == '-' then 1 else 0) <= i < |s| ==> IsDigit(s[i])
  {
    if s[0] == '-' then 0 - ParseDigits(s[1..]) as int else ParseDigits(s)
  }

  lemma {:induction false} NatToStringRoundTrip(n: nat)
    ensures ParseDigits(NatToString(n)) == n
    decreases n
  {
    if n >= 10 {
      var r := NatToString(n);
      NatToStringRoundTrip(n / 10);
      assert r[..|r| - 1] == NatToString(n / 10);
    }
  }

  /** The decimal rendering of an integer reads back as that integer. */
  lemma IntToStringRoundTrip(n: int)
    ensures var s := IntToString(n);
      (forall i :: (if s[0] == '-' then 1 else 0) <= i < |s| ==> IsDigit(s[i])) && ParseInt(s) == n
  {
    if n < 0 {
      NatToStringRoundTrip(-n);
      assert IntToString(n)[1..] == NatToString(-n);
    } else {
      NatToStringRoundTrip(n);
    }
  }

  /** Different integers print differently. */
  lemma IntToStringInjective(a: int, b: int)
    ensures IntToString(a) == IntToString(b) ==> a == b
  {
    IntToStringRoundTrip(a);
    IntToStringRoundTrip(b);
  }

  /** `String.join` / `Collectors.joining(separator)`. */
  function Join(parts: seq<string>, separator: string): string {
    if |parts| == 0 then "" else if |parts| == 1 then parts[0]
    else parts[0] + separator + Join(parts[1..], separator)
  }

  const INT_MIN: int := -0x8000_0000
  const INT_MAX: int := 0x7FFF_FFFF

  /** Java `int` arithmetic: the result wrapped into the 32-bit range. */
  function WrapInt(x: int): (r: int)
    ensures INT_MIN <= r <= INT_MAX
    ensures (r - x) % 0x1_0000_0000 == 0
    ensures INT_MIN <= x <= INT_MAX ==> r == x
  {
    var m := x % 0x1_0000_0000;
    if m > INT_MAX then m - 0x1_0000_0000 else m
  }

  const LONG_MIN: int := -0x8000_0000_0000_0000
  const LONG_MAX: int := 0x7FFF_FFFF_FFFF_FFFF

  /** Java `long` arithmetic: the result wrapped into the 64-bit range. */
  function WrapLong(x: int): (r: int)
    ensures LONG_MIN <= r <= LONG_MAX
    ensures (r - x) % 0x1_0000_0000_0000_0000 == 0
    ensures LONG_MIN <= x <= LONG_MAX ==> r == x
  {
    var m := x % 0x1_0000_0000_0000_0000;
    if m > LONG_MAX then m - 0x1_0000_0000_0000_0000 else m
  }

  function Abs(x: int): nat { if x < 0 then -x else x }

  /** Java's `/` on integers: the quotient truncated toward zero. */
  function JavaDiv(a: int, b: int): int
    requires b != 0
  {
    var q := Abs(a) / Abs(b);
    if (a < 0) == (b < 0) then q else -q
  }

  /** Java's `%` on integers: the remainder takes the sign of `a`. */
  function JavaRem(a: int, b: int): int
    requires b != 0
  {
    a - b * JavaDiv(a, b)
  }

  lemma JavaDivRem(a: int, b: int)
    requires b != 0
    ensures a == b * JavaDiv(a, b) + JavaRem(a, b)
    ensures Abs(JavaRem(a, b)) < Abs(b)
    ensures JavaRem(a, b) == if a >= 0 then Abs(a) % Abs(b) else -(Abs(a) % Abs(b))
  {
    var q, m := Abs(a) / Abs(b), Abs(a) % Abs(b);
    assert Abs(a) == Abs(b) * q + m;
    if a >= 0 && b > 0 {
      assert JavaRem(a, b) == a - b * q;
    } else if a >= 0 {
      assert JavaRem(a, b) == a + b * q;
    } else if b > 0 {
      assert JavaRem(a, b) == a + b * q;
    } else {
      assert JavaRem(a, b) == a - b * q;
    }
  }

  /** Euclidean division of `r + d * q` by `d` recovers `q` and `r`. */
  lemma DivMod(r: nat, d: nat, q: nat)
    requires r < d
    ensures (r + d * q) % d == r && (r + d * q) / d == q
  {
    var x := r + d * q;
    var k := x / d - q;
    assert d * (x / d) + x % d == x;
    assert d * k == r - x % d by {
      assert d * (x / d) == d * (k + q);
      MulAdd(d, k, q);
    }
    if k >= 1 {
      MulAtLeast(d, k);
    }
  }

  lemma MulAdd(d: int, k: int, q: int)
    ensures d * (k + q) == d * k + d * q
  {
  }

  lemma {:induction false} MulAtLeast(d: nat, k: int)
    requires k >= 1
    ensures d * k >= d
  {
    if k > 1 {
      MulAtLeast(d, k - 1);
      MulAdd(d, k - 1, 1);
    }
  }

  function BoolToString(b: bool): string {
    if b then "true" else "false"
  }

  /** `Object.toString()` of a value. */
  function ToString(v: Value): string
    decreases v, 1
  {
    match v
    case Null => "null"
    case Num(n) => IntToString(n)
    case Str(s) => s
    case Bool(b) => BoolToString(b)
    case Collection(items, _) => "[" + Join(ToStrings(v, items), ", ") + "]"
    case Pair(first, second) => ToString(first) + "->" + ToString(second)
    case Array(_, identity) => identity
    case Optional(content) => if content.Some? then "Optional[" + ToString(content.value) + "]" else "Optional.empty"
    case Map(entries) => "{" + Join(EntryStrings(v, entries), ", ") + "}"
    case Other(text) => text
  }

  function ToStrings(owner: Value, items: seq<Value>): (r: seq<string>)
    requires forall i :: 0 <= i < |items| ==> items[i] < owner
    ensures |r| == |items|
    decreases owner, 0, |items|
  {
    if |items| == 0 then [] else ToStrings(owner, items[..|items| - 1]) + [ToString(items[|items| - 1])]
  }

  function EntryStrings(owner: Value, entries: seq<(Value, Value)>): (r: seq<string>)
    requires forall i :: 0 <= i < |entries| ==> entries[i].0 < owner && entries[i].1 < owner
    ensures |r| == |entries|
    decreases owner, 0, |entries|
  {
    if |entries| == 0 then []
    else
      var e := entries[|entries| - 1];
      EntryStrings(owner, entries[..|entries| - 1]) + [ToString(e.0) + "=" + ToString(e.1)]
  }

  /** Spring's `ObjectUtils.isEmpty(Object)`. */
  predicate IsEmptyObject(v: Value) {
    match v
    case Null => true
    case Optional(content) => content.None?
    case Str(s) => |s| == 0
    case Array(elements, _) => |elements| == 0
    case Collection(items, _) => |items| == 0
    case Map(entries) => |entries| == 0
    case _ => false
  }
  const DUPLICATE_KEY := "Duplicate key"

  /** `Collectors.toMap(key, value)` over the keys computed for `values`
      (`None` for a key that fails with a `NullPointerException`); a
      repeated key fails with `IllegalStateException`. */
  function ToMap<K, V>(keys: seq<Option<K>>, values: seq<V>): (r: Outcome<map<K, V>>)
    requires |keys| == |values|
    ensures r.Err? ==> r.error == NullPointer || r.error == IllegalState(DUPLICATE_KEY)
  {
    if |keys| == 0 then Ok(map[])
    else
      var n := |keys| - 1;
      var m :- ToMap(keys[..n], values[..n]);
      if keys[n].None? then Err(NullPointer)
      else if keys[n].value in m then Err(IllegalState(DUPLICATE_KEY))
      else Ok(m[keys[n].value := values[n]])
  }

  /** A built map has no null key, holds exactly the given keys and maps each
      to the value at the same position. */
  lemma {:induction false} ToMapContents<K, V>(keys: seq<Option<K>>, values: seq<V>)
    requires |keys| == |values| && ToMap(keys, values).Ok?
    ensures forall i :: 0 <= i < |keys| ==> keys[i].Some?
    ensures forall k :: k in ToMap(keys, values).value ==> Some(k) in keys
    ensures forall i :: 0 <= i < |keys| ==>
      keys[i].value in ToMap(keys, values).value && ToMap(keys, values).value[keys[i].value] == values[i]
  {
    if |keys| > 0 {
      var n := |keys| - 1;
      ToMapContents(keys[..n], values[..n]);
      assert forall i :: 0 <= i < n ==> keys[i] == keys[..n][i] && values[i] == values[..n][i];
      assert forall k :: Some(k) in keys[..n] ==> Some(k) in keys;
    }
  }
}
