/** Collection helpers of the extension kit: merging, de-duplication and
    the cartesian product. Java lists are sequences; a list argument that
    may be null is an `Option`. */
module CollectionKit {
  import opened Wrappers
  import opened JavaValues

  // ---------------------------------------------------------------- merge

  /** `merge(lists...)`: every list's elements, list after list. */
  function Merge<T>(lists: seq<seq<T>>): seq<T> {
    if |lists| == 0 then [] else lists[0] + Merge(lists[1..])
  }

  lemma {:induction false} MergeLength<T>(lists: seq<seq<T>>)
    ensures |Merge(lists)| == TotalLength(lists)
  {
    if |lists| > 0 {
      MergeLength(lists[1..]);
    }
  }

  function TotalLength<T>(lists: seq<seq<T>>): nat {
    if |lists| == 0 then 0 else |lists[0]| + TotalLength(lists[1..])
  }

  /** Merging two runs of lists is merging each and concatenating. */
  lemma {:induction false} MergeAppend<T>(a: seq<seq<T>>, b: seq<seq<T>>)
    ensures Merge(a + b) == Merge(a) + Merge(b)
  {
    if |a| > 0 {
      assert (a + b)[1..] == a[1..] + b;
      MergeAppend(a[1..], b);
    } else {
      assert a + b == b;
    }
  }

  /** An element is in the merge iff it is in one of the lists. */
  lemma {:induction false} MergeMembers<T>(lists: seq<seq<T>>, x: T)
    ensures x in Merge(lists) <==> exists i :: 0 <= i < |lists| && x in lists[i]
  {
    if |lists| > 0 {
      MergeMembers(lists[1..], x);
      if x in lists[0] {
      } else if x in Merge(lists[1..]) {
        var i :| 0 <= i < |lists[1..]| && x in lists[1..][i];
        assert x in lists[i + 1];
      } else {
        forall i | 0 <= i < |lists| ensures x !in lists[i] {
          if i > 0 { assert lists[i] == lists[1..][i - 1]; }
        }
      }
    }
  }

  // ------------------------------------------------------------ distinct

  /** The fold `Collectors.toMap(key, identity, (k, t) -> k, LinkedHashMap::new)`
      builds: keys in insertion order, and for each key its value. */
  datatype LinkedMap<K(==), V> = LinkedMap(keys: seq<K>, values: map<K, V>)

  /** `put` with the merge function `(old, new) -> old`: a present key keeps
      both its value and its place. */
  function PutFirst<K(==), V>(m: LinkedMap<K, V>, k: K, v: V): LinkedMap<K, V> {
    if k in m.values then m else LinkedMap(m.keys + [k], m.values[k := v])
  }

  function Collect<T, K(==)>(key: T -> K, s: seq<T>): LinkedMap<K, T> {
    if |s| == 0 then LinkedMap([], map[])
    else PutFirst(Collect(key, s[..|s| - 1]), key(s[|s| - 1]), s[|s| - 1])
  }

  /** The keys of `s`. */
  function KeySet<T, K(==)>(key: T -> K, s: seq<T>): set<K> {
    set i | 0 <= i < |s| :: key(s[i])
  }

  /** `distinctBy(keySelector, list)`: the values of the collected map, in key order. */
  function DistinctBy<T, K(==)>(key: T -> K, s: seq<T>): (r: seq<T>)
  {
    var m := Collect(key, s);
    CollectWellFormed(key, s);
    seq(|m.keys|, i requires 0 <= i < |m.keys| => m.values[m.keys[i]])
  }

  /** `Function.identity()`. */
  function Identity<T>(x: T): T { x }

  /** `Stream.distinct()`: the first occurrence of every element. */
  function Distinct<T(==)>(s: seq<T>): seq<T> {
    DistinctBy(Identity, s)
  }

  /** `distinctMerge(lists...)`. */
  function DistinctMerge<T(==)>(lists: seq<seq<T>>): seq<T> {
    Distinct(Merge(lists))
  }

  /** `distinctMerge(keySelector, lists...)`. */
  function DistinctMergeBy<T, K(==)>(key: T -> K, lists: seq<seq<T>>): seq<T> {
    DistinctBy(key, Merge(lists))
  }

  /** `distinctMerge(keySelector, arrays...)`: this overload removes equal
      elements before de-duplicating by key. */
  function DistinctMergeArraysBy<T(==), K(==)>(key: T -> K, arrays: seq<seq<T>>): seq<T> {
    DistinctBy(key, Distinct(Merge(arrays)))
  }

  /** Reference definition: keep an element exactly when no earlier element
      has its key. */
  function FirstsBy<T, K(==)>(key: T -> K, s: seq<T>): seq<T> {
    if |s| == 0 then []
    else
      var init := s[..|s| - 1];
      var x := s[|s| - 1];
      FirstsBy(key, init) + (if key(x) in KeySet(key, init) then [] else [x])
  }

  lemma KeySetSnoc<T, K>(key: T -> K, s: seq<T>)
    requires |s| > 0
    ensures KeySet(key, s) == KeySet(key, s[..|s| - 1]) + {key(s[|s| - 1])}
  {
    var init := s[..|s| - 1];
    forall k | k in KeySet(key, s) ensures k in KeySet(key, init) + {key(s[|s| - 1])} {
      var i :| 0 <= i < |s| && key(s[i]) == k;
      if i < |s| - 1 { assert init[i] == s[i]; }
    }
    forall k | k in KeySet(key, init) ensures k in KeySet(key, s) {
      var i :| 0 <= i < |init| && key(init[i]) == k;
      assert s[i] == init[i];
    }
  }

  lemma KeySetAppend<T, K>(key: T -> K, a: seq<T>, x: T)
    ensures KeySet(key, a + [x]) == KeySet(key, a) + {key(x)}
  {
    KeySetSnoc(key, a + [x]);
    assert (a + [x])[..|a|] == a;
  }

  /** The collected map is well formed: its keys are those of `s`, without
      repetition, and map to elements of `s` carrying that key. */
  predicate WellFormed<T, K(==)>(key: T -> K, m: LinkedMap<K, T>) {
    (forall i :: 0 <= i < |m.keys| ==> m.keys[i] in m.values) &&
    (forall k :: k in m.values ==> key(m.values[k]) == k)
  }

  lemma {:induction false} CollectWellFormed<T, K>(key: T -> K, s: seq<T>)
    ensures WellFormed(key, Collect(key, s))
    ensures Collect(key, s).values.Keys == KeySet(key, s)
  {
    if |s| > 0 {
      CollectWellFormed(key, s[..|s| - 1]);
      KeySetSnoc(key, s);
    }
  }

  /** The fold the source performs computes the reference definition. */
  lemma {:induction false} DistinctByIsFirsts<T, K>(key: T -> K, s: seq<T>)
    ensures DistinctBy(key, s) == FirstsBy(key, s)
  {
    if |s| > 0 {
      var init := s[..|s| - 1];
      var x := s[|s| - 1];
      DistinctByIsFirsts(key, init);
      CollectWellFormed(key, init);
      var m := Collect(key, init);
      var d := DistinctBy(key, init);
      if key(x) !in KeySet(key, init) {
        var m' := Collect(key, s);
        assert m' == LinkedMap(m.keys + [key(x)], m.values[key(x) := x]);
        CollectKeysFresh(key, init);
        assert DistinctBy(key, s) == d + [x] by {
          forall i | 0 <= i < |m.keys| ensures m'.values[m'.keys[i]] == d[i] {
            assert m.keys[i] != key(x);
          }
        }
      }
    }
  }

  lemma CollectKeysFresh<T, K>(key: T -> K, s: seq<T>)
    ensures forall i :: 0 <= i < |Collect(key, s).keys| ==> Collect(key, s).keys[i] in KeySet(key, s)
  {
    CollectWellFormed(key, s);
  }

  /** No two elements of `FirstsBy` share a key. */
  lemma {:induction false} FirstsDistinctKeys<T, K>(key: T -> K, s: seq<T>)
    ensures forall i, j :: 0 <= i < j < |FirstsBy(key, s)| ==> key(FirstsBy(key, s)[i]) != key(FirstsBy(key, s)[j])
    ensures KeySet(key, FirstsBy(key, s)) == KeySet(key, s)
  {
    if |s| > 0 {
      var init := s[..|s| - 1];
      var x := s[|s| - 1];
      var f := FirstsBy(key, init);
      FirstsDistinctKeys(key, init);
      KeySetSnoc(key, s);
      if key(x) !in KeySet(key, init) {
        KeySetAppend(key, f, x);
        var r := f + [x];
        forall i, j | 0 <= i < j < |r| ensures key(r[i]) != key(r[j]) {
          if j == |f| {
            assert key(r[i]) in KeySet(key, f);
          } else {
            assert r[i] == f[i] && r[j] == f[j];
          }
        }
      } else {
        assert FirstsBy(key, s) == f;
      }
    }
  }

  /** Every element of `FirstsBy` is an element of its input. */
  lemma {:induction false} FirstsSubset<T, K>(key: T -> K, s: seq<T>)
    ensures forall i :: 0 <= i < |FirstsBy(key, s)| ==> FirstsBy(key, s)[i] in s
  {
    if |s| > 0 {
      var init := s[..|s| - 1];
      FirstsSubset(key, init);
      assert forall y :: y in init ==> y in s;
    }
  }

  /** distinctBy keeps the first element per key: its result has pairwise
      different keys, one for every key of the input, and each element is
      the first of the input with its key, in first-seen order. */
  lemma DistinctByKeepsFirst<T, K>(key: T -> K, s: seq<T>)
    ensures forall i, j :: 0 <= i < j < |DistinctBy(key, s)| ==> key(DistinctBy(key, s)[i]) != key(DistinctBy(key, s)[j])
    ensures KeySet(key, DistinctBy(key, s)) == KeySet(key, s)
    ensures forall i :: 0 <= i < |DistinctBy(key, s)| ==> DistinctBy(key, s)[i] in s
  {
    DistinctByIsFirsts(key, s);
    FirstsDistinctKeys(key, s);
    FirstsSubset(key, s);
  }

  lemma KeySetIdentity<T>(t: seq<T>)
    ensures forall y :: y in KeySet(Identity, t) <==> y in t
  {
    forall y | y in t ensures y in KeySet(Identity, t) {
      var i :| 0 <= i < |t| && t[i] == y;
      assert Identity(t[i]) == y;
    }
  }

  /** distinctMerge has no duplicates and holds every element of every list. */
  lemma DistinctMergeNoDuplicates<T>(lists: seq<seq<T>>)
    ensures forall i, j :: 0 <= i < j < |DistinctMerge(lists)| ==> DistinctMerge(lists)[i] != DistinctMerge(lists)[j]
    ensures forall x :: x in DistinctMerge(lists) <==> exists i :: 0 <= i < |lists| && x in lists[i]
  {
    var s := Merge(lists);
    var d := DistinctMerge(lists);
    DistinctByKeepsFirst(Identity, s);
    KeySetIdentity(s);
    KeySetIdentity(d);
    forall i, j | 0 <= i < j < |d| ensures d[i] != d[j] {
      assert Identity(d[i]) != Identity(d[j]);
    }
    forall x ensures x in s <==> exists i :: 0 <= i < |lists| && x in lists[i] {
      MergeMembers(lists, x);
    }
  }

  /** The identity de-duplication keeps exactly the elements of its input. */
  lemma ElementsOfFirsts<T>(s: seq<T>)
    ensures forall y :: y in FirstsBy(Identity, s) <==> y in s
  {
    FirstsDistinctKeys(Identity, s);
    KeySetIdentity(s);
    KeySetIdentity(FirstsBy(Identity, s));
  }

  lemma KeySetSameElements<T, K>(key: T -> K, a: seq<T>, b: seq<T>)
    requires forall y :: y in a <==> y in b
    ensures KeySet(key, a) == KeySet(key, b)
  {
    forall k | k in KeySet(key, a) ensures k in KeySet(key, b) {
      var i :| 0 <= i < |a| && key(a[i]) == k;
      assert a[i] in b;
    }
    forall k | k in KeySet(key, b) ensures k in KeySet(key, a) {
      var i :| 0 <= i < |b| && key(b[i]) == k;
      assert b[i] in a;
    }
  }

  lemma FirstsSnoc<T, K>(key: T -> K, d: seq<T>, x: T)
    ensures FirstsBy(key, d + [x]) == FirstsBy(key, d) + (if key(x) in KeySet(key, d) then [] else [x])
  {
    assert (d + [x])[..|d|] == d;
  }

  lemma {:induction false} FirstsOfIdentityFirsts<T, K>(key: T -> K, s: seq<T>)
    ensures FirstsBy(key, FirstsBy(Identity, s)) == FirstsBy(key, s)
  {
    if |s| > 0 {
      var init := s[..|s| - 1];
      var x := s[|s| - 1];
      var d := FirstsBy(Identity, init);
      FirstsOfIdentityFirsts(key, init);
      KeySetIdentity(init);
      if x !in init {
        assert FirstsBy(Identity, s) == d + [x];
        ElementsOfFirsts(init);
        KeySetSameElements(key, d, init);
        FirstsSnoc(key, d, x);
      } else {
        assert FirstsBy(Identity, s) == d;
        var i :| 0 <= i < |init| && init[i] == x;
        assert key(x) in KeySet(key, init);
      }
    }
  }

  /** Removing equal elements first does not change a de-duplication by key,
      so the array overload of distinctMerge agrees with the list overload. */
  lemma DistinctByAfterDistinct<T, K>(key: T -> K, s: seq<T>)
    ensures DistinctBy(key, Distinct(s)) == DistinctBy(key, s)
  {
    DistinctByIsFirsts(Identity, s);
    DistinctByIsFirsts(key, FirstsBy(Identity, s));
    DistinctByIsFirsts(key, s);
    FirstsOfIdentityFirsts(key, s);
  }

  lemma DistinctMergeOverloadsAgree<T, K>(key: T -> K, arrays: seq<seq<T>>)
    ensures DistinctMergeArraysBy(key, arrays) == DistinctMergeBy(key, arrays)
  {
    DistinctByAfterDistinct(key, Merge(arrays));
  }

  // ------------------------------------------------------------- isEmpty

  /** `isEmpty(collection)`: null or without elements. */
  predicate IsEmpty<T>(c: Option<seq<T>>)
    ensures IsEmpty(c) <==> c == None || c == Some([])
  {
    c.None? || |c.value| == 0
  }

  predicate IsNotEmpty<T>(c: Option<seq<T>>) {
    !IsEmpty(c)
  }

  // --------------------------------------------------- cartesian product

  /** The `int` the stream `filter(isNotEmpty).map(size).reduce(*)` yields,
      before `orElse(0)`: products of the non-empty lists' sizes, multiplied
      left to right in 32-bit arithmetic. */
  function PowerOf<T>(lists: seq<seq<T>>): Option<int> {
    if |lists| == 0 then None
    else
      var p := PowerOf(lists[..|lists| - 1]);
      var n := |lists[|lists| - 1]|;
      if n == 0 then p else if p.None? then Some(n) else Some(WrapInt(p.value * n))
  }

  function Power<T>(lists: seq<seq<T>>): int {
    PowerOf(lists).GetOr(0)
  }

  /** The mathematical product of the sizes. */
  function Product<T>(lists: seq<seq<T>>): nat {
    if |lists| == 0 then 1 else Product(lists[..|lists| - 1]) * |lists[|lists| - 1]|
  }

  predicate AllNonEmpty<T>(lists: seq<seq<T>>) {
    forall j :: 0 <= j < |lists| ==> |lists[j]| > 0
  }

  /** The tuple the inner loop builds for `index`: one element per list,
      starting from the last list, each chosen by the remainder of the
      index, which is then divided by that list's size. */
  function Tuple<T, R>(lists: seq<seq<T>>, mapper: T -> R, index: nat): (t: seq<R>)
    requires AllNonEmpty(lists)
    ensures |t| == |lists|
  {
    if |lists| == 0 then []
    else
      var last := lists[|lists| - 1];
      [mapper(last[index % |last|])] + Tuple(lists[..|lists| - 1], mapper, index / |last|)
  }

  /** `cartesianProduct(sourceList, mapper)`. A null or empty source and a
      power that is not positive give the empty list; an empty inner list
      next to non-empty ones makes `index % size` divide by zero. */
  function Cartesian<T, R>(source: Option<seq<seq<T>>>, mapper: T -> R): Outcome<seq<seq<R>>> {
    if IsEmpty(source) then Ok([])
    else
      var lists := source.value;
      var power := Power(lists);
      if power <= 0 then Ok([])
      else if !AllNonEmpty(lists) then Err(Arithmetic)
      else Ok(seq(power, i requires 0 <= i < power => Tuple(lists, mapper, i)))
  }

  method CartesianProduct<T, R>(source: Option<seq<seq<T>>>, mapper: T -> R) returns (r: Outcome<seq<seq<R>>>)
    ensures r == Cartesian(source, mapper)
  {
    if IsEmpty(source) {
      return Ok([]);
    }
    var lists := source.value;
    var power := Power(lists);
    if power <= 0 {
      return Ok([]);
    }
    var resultList: seq<seq<R>> := [];
    var i := 0;
    while i < power
      invariant 0 <= i <= power
      invariant i > 0 ==> AllNonEmpty(lists)
      invariant |resultList| == i
      invariant AllNonEmpty(lists) ==> forall k :: 0 <= k < i ==> resultList[k] == Tuple(lists, mapper, k)
    {
      var tempList := BuildTuple(lists, mapper, i);
      if tempList.Err? {
        return Err(Arithmetic);
      }
      resultList := resultList + [tempList.value];
      i := i + 1;
    }
    assert resultList == seq(power, k requires 0 <= k < power => Tuple(lists, mapper, k));
    return Ok(resultList);
  }

  /** The inner loop of cartesianProduct: walks the lists from the last to the
      first, taking the element at `index % size` and dividing the index by the
      size; an empty list fails with the division by zero. */
  method BuildTuple<T, R>(lists: seq<seq<T>>, mapper: T -> R, i: nat) returns (t: Outcome<seq<R>>)
    ensures t.Ok? <==> AllNonEmpty(lists)
    ensures t.Ok? ==> t.value == Tuple(lists, mapper, i)
    ensures t.Err? ==> t.error == Arithmetic
  {
    var index: nat := i;
    var tempList: seq<R> := [];
    var j := |lists| - 1;
    assert lists[..j + 1] == lists;
    while j >= 0
      invariant -1 <= j < |lists|
      invariant forall k :: j < k < |lists| ==> |lists[k]| > 0
      invariant AllNonEmpty(lists) ==> tempList + Tuple(lists[..j + 1], mapper, index) == Tuple(lists, mapper, i)
    {
      var currentList := lists[j];
      if |currentList| == 0 {
        return Err(Arithmetic);
      }
      if AllNonEmpty(lists) {
        TupleStep(lists, mapper, j, index);
      }
      tempList := tempList + [mapper(currentList[index % |currentList|])];
      index := index / |currentList|;
      j := j - 1;
    }
    assert lists[..0] == [];
    return Ok(tempList);
  }

  /** One turn of the inner loop: the element from list j, then the rest
      of the index for the lists before it. */
  lemma TupleStep<T, R>(lists: seq<seq<T>>, mapper: T -> R, j: nat, index: nat)
    requires j < |lists| && AllNonEmpty(lists)
    ensures AllNonEmpty(lists[..j]) && AllNonEmpty(lists[..j + 1])
    ensures Tuple(lists[..j + 1], mapper, index)
      == [mapper(lists[j][index % |lists[j]|])] + Tuple(lists[..j], mapper, index / |lists[j]|)
  {
    assert lists[..j + 1][..j] == lists[..j];
    assert lists[..j + 1][j] == lists[j];
  }

  // ---------------------------------------------- cartesian product facts

  /** An empty or null source gives the empty product. */
  lemma CartesianOfNothing<T, R>(mapper: T -> R)
    ensures Cartesian(None, mapper) == Ok([])
    ensures Cartesian(Some([]), mapper) == Ok([])
  {
  }

  /** Without overflow the 32-bit power is the product of the sizes. */
  lemma {:induction false} PowerIsProduct<T>(lists: seq<seq<T>>)
    requires |lists| > 0 && AllNonEmpty(lists) && Product(lists) <= INT_MAX
    ensures Power(lists) == Product(lists)
    ensures PowerOf(lists) == Some(Product(lists))
  {
    var init := lists[..|lists| - 1];
    var n := |lists[|lists| - 1]|;
    assert n >= 1;
    ProductPositive(init);
    assert Product(lists) == Product(init) * n;
    if |init| > 0 {
      assert forall j :: 0 <= j < |init| ==> init[j] == lists[j];
      MulAtLeast(Product(init), n);
      PowerIsProduct(init);
      assert PowerOf(lists) == Some(WrapInt(Product(init) * n));
    } else {
      assert PowerOf(init).None? && Product(init) == 1;
    }
  }

  lemma {:induction false} ProductPositive<T>(lists: seq<seq<T>>)
    requires AllNonEmpty(lists)
    ensures Product(lists) >= 1
  {
    if |lists| > 0 {
      ProductPositive(lists[..|lists| - 1]);
    }
  }

  /** The index a choice of one position per list is encoded to: the last
      list's position is the lowest digit, in mixed radix. */
  function Encode<T>(lists: seq<seq<T>>, choice: seq<nat>): nat
    requires |choice| == |lists|
  {
    if |lists| == 0 then 0
    else
      var n := |lists| - 1;
      choice[n] + |lists[n]| * Encode(lists[..n], choice[..n])
  }

  predicate IsChoice<T>(lists: seq<seq<T>>, choice: seq<nat>) {
    |choice| == |lists| && forall j :: 0 <= j < |lists| ==> choice[j] < |lists[j]|
  }

  lemma {:induction false} EncodeBound<T>(lists: seq<seq<T>>, choice: seq<nat>)
    requires IsChoice(lists, choice)
    ensures Encode(lists, choice) < Product(lists)
  {
    if |lists| > 0 {
      var n := |lists| - 1;
      EncodeBound(lists[..n], choice[..n]);
      var e := Encode(lists[..n], choice[..n]);
      assert choice[n] + |lists[n]| * e < |lists[n]| * (e + 1);
      assert |lists[n]| * (e + 1) <= |lists[n]| * Product(lists[..n]);
    }
  }

  /** The tuple at a choice's index takes, at position k, the chosen element
      of list |lists| - 1 - k. */
  lemma {:induction false} TupleAtEncode<T, R>(lists: seq<seq<T>>, mapper: T -> R, choice: seq<nat>)
    requires AllNonEmpty(lists) && IsChoice(lists, choice)
    ensures forall k :: 0 <= k < |lists| ==>
      Tuple(lists, mapper, Encode(lists, choice))[k] == mapper(lists[|lists| - 1 - k][choice[|lists| - 1 - k]])
  {
    if |lists| > 0 {
      var n := |lists| - 1;
      var size := |lists[n]|;
      var e := Encode(lists[..n], choice[..n]);
      assert (choice[n] + size * e) % size == choice[n] && (choice[n] + size * e) / size == e by {
        DivMod(choice[n], size, e);
      }
      TupleAtEncode(lists[..n], mapper, choice[..n]);
      var t := Tuple(lists, mapper, Encode(lists, choice));
      assert t == [mapper(lists[n][choice[n]])] + Tuple(lists[..n], mapper, e);
    }
  }

  /** Every way of picking one element per list occurs in the product, when
      the product fits in an `int`. */
  lemma CartesianCovers<T, R>(lists: seq<seq<T>>, mapper: T -> R, choice: seq<nat>)
    requires |lists| > 0 && AllNonEmpty(lists) && Product(lists) <= INT_MAX
    requires IsChoice(lists, choice)
    ensures Cartesian(Some(lists), mapper).Ok?
    ensures |Cartesian(Some(lists), mapper).value| == Product(lists)
    ensures Encode(lists, choice) < Product(lists)
    ensures forall k :: 0 <= k < |lists| ==>
      Cartesian(Some(lists), mapper).value[Encode(lists, choice)][k] == mapper(lists[|lists| - 1 - k][choice[|lists| - 1 - k]])
  {
    PowerIsProduct(lists);
    ProductPositive(lists);
    EncodeBound(lists, choice);
    TupleAtEncode(lists, mapper, choice);
  }

  /** An empty inner list beside a non-empty one makes the product fail. */
  lemma CartesianEmptyInner<T, R>(lists: seq<seq<T>>, mapper: T -> R, j: nat, k: nat)
    requires j < |lists| && k < |lists| && |lists[j]| == 0 && |lists[k]| > 0
    requires forall m :: 0 <= m < |lists| && |lists[m]| > 0 ==> |lists[m]| == 1
    ensures Cartesian(Some(lists), mapper) == Err(Arithmetic)
  {
    PowerOfOnes(lists, k);
  }

  lemma {:induction false} PowerOfOnes<T>(lists: seq<seq<T>>, k: nat)
    requires k < |lists| && |lists[k]| > 0
    requires forall m :: 0 <= m < |lists| && |lists[m]| > 0 ==> |lists[m]| == 1
    ensures Power(lists) == 1
  {
    var n := |lists| - 1;
    if k < n {
      PowerOfOnes(lists[..n], k);
    } else {
      var p := PowerOf(lists[..n]);
      assert |lists[n]| == 1;
      PowerOfOnesOption(lists[..n]);
      assert p.Some? ==> p.value * 1 == 1;
    }
  }

  lemma {:induction false} PowerOfOnesOption<T>(lists: seq<seq<T>>)
    requires forall m :: 0 <= m < |lists| && |lists[m]| > 0 ==> |lists[m]| == 1
    ensures PowerOf(lists).None? || PowerOf(lists).value == 1
  {
    if |lists| > 0 {
      PowerOfOnesOption(lists[..|lists| - 1]);
    }
  }
}
