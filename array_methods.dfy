/**
  The array helpers `myMap`, `myFilter`, `myEvery`, `mySome` and `myReduce`.

  Each is a free method over the array's elements (a `seq<Value>`, so the
  input cannot be changed by the helper). A callback is a pure function of
  (item, index, array); JavaScript coerces what it returns with ToBoolean
  wherever it is tested, modelled by `Truthy`.
 */
module ArrayMethods {
  import opened Values

  /** The callback of map, filter, every and some: (item, index, array). */
  type Callback = (Value, nat, seq<Value>) -> Value

  /** The callback of reduce: (accumulator, item, index, array). */
  type Reducer = (Value, Value, nat, seq<Value>) -> Value

  /**
    `myMap`: a new array of the same length whose element i is a clone of
    `cb(arr[i], i, arr)`.
   */
  method MyMap(arr: seq<Value>, cb: Callback) returns (target: seq<Value>)
    ensures |target| == |arr|
    ensures forall i :: 0 <= i < |arr| ==> target[i] == cb(arr[i], i, arr)
  {
    target := [];
    for i := 0 to |arr|
      invariant |target| == i
      invariant forall j :: 0 <= j < i ==> target[j] == cb(arr[j], j, arr)
    {
      target := target + [DeepClone(cb(arr[i], i, arr))];
    }
  }

  /**
    The indices below `n` whose element the callback finds truthy, in
    ascending order: exactly the elements `myFilter` keeps.
   */
  function Kept(arr: seq<Value>, cb: Callback, n: nat): (ks: seq<nat>)
    requires n <= |arr|
    ensures |ks| <= n
    ensures forall j :: 0 <= j < |ks| ==> ks[j] < n && Truthy(cb(arr[ks[j]], ks[j], arr))
    ensures forall j, l :: 0 <= j < l < |ks| ==> ks[j] < ks[l]
    ensures forall i :: 0 <= i < n && Truthy(cb(arr[i], i, arr)) ==> i in ks
  {
    if n == 0 then []
    else
      var ks := Kept(arr, cb, n - 1);
      if Truthy(cb(arr[n - 1], n - 1, arr)) then ks + [n - 1] else ks
  }

  /**
    `myFilter`: clones of the elements for which the callback is truthy, in
    their original order; `index` counts the elements kept so far.
   */
  method MyFilter(arr: seq<Value>, cb: Callback) returns (target: seq<Value>)
    ensures |target| <= |arr|
    ensures |target| == |Kept(arr, cb, |arr|)|
    ensures forall j :: 0 <= j < |target| ==> target[j] == arr[Kept(arr, cb, |arr|)[j]]
  {
    target := [];
    var index := 0;
    for i := 0 to |arr|
      invariant index == |target| == |Kept(arr, cb, i)|
      invariant forall j :: 0 <= j < index ==> target[j] == arr[Kept(arr, cb, i)[j]]
    {
      if Truthy(cb(arr[i], i, arr)) {
        target := target + [DeepClone(arr[i])];
        index := index + 1;
      }
    }
  }

  /**
    `myEvery`: true iff the callback is truthy on every element (so true on
    an empty array). It does not stop early: `calls` lists the indices the
    callback was applied to, which are all of them, in order.
   */
  method MyEvery(arr: seq<Value>, cb: Callback) returns (flag: bool, ghost calls: seq<nat>)
    ensures flag <==> forall i :: 0 <= i < |arr| ==> Truthy(cb(arr[i], i, arr))
    ensures |calls| == |arr| && forall j :: 0 <= j < |calls| ==> calls[j] == j
  {
    flag := true;
    calls := [];
    for i := 0 to |arr|
      invariant flag <==> forall j :: 0 <= j < i ==> Truthy(cb(arr[j], j, arr))
      invariant |calls| == i && forall j :: 0 <= j < i ==> calls[j] == j
    {
      calls := calls + [i];
      if !Truthy(cb(arr[i], i, arr)) {
        flag := false;
      }
    }
  }

  /**
    `mySome`: true iff the callback is truthy on at least one element (so
    false on an empty array). Like `myEvery`, it applies the callback to
    every index.
   */
  method MySome(arr: seq<Value>, cb: Callback) returns (flag: bool, ghost calls: seq<nat>)
    ensures flag <==> exists i :: 0 <= i < |arr| && Truthy(cb(arr[i], i, arr))
    ensures |calls| == |arr| && forall j :: 0 <= j < |calls| ==> calls[j] == j
  {
    flag := false;
    calls := [];
    for i := 0 to |arr|
      invariant flag <==> exists j :: 0 <= j < i && Truthy(cb(arr[j], j, arr))
      invariant |calls| == i && forall j :: 0 <= j < i ==> calls[j] == j
    {
      calls := calls + [i];
      if Truthy(cb(arr[i], i, arr)) {
        flag := true;
      }
    }
  }

  /**
    `total || arr[0]`: a truthy `total` is kept, otherwise the first element
    is used; index 0 of an empty array reads as undefined. As with any `||`,
    the start is truthy iff one of the two operands is.
   */
  function StartValue(arr: seq<Value>, total: Value): (start: Value)
    ensures Truthy(total) ==> start == total
    ensures !Truthy(total) && arr != [] ==> start == arr[0]
    ensures !Truthy(total) && arr == [] ==> start == undefined
    ensures Truthy(start) <==> Truthy(total) || (arr != [] && Truthy(arr[0]))
  {
    if Truthy(total) then total else if |arr| > 0 then arr[0] else undefined
  }

  /**
    The accumulator after the loop's iterations for indices `k` to `n - 1`,
    run in order from `acc`.
   */
  function FoldRange(arr: seq<Value>, cb: Reducer, acc: Value, k: nat, n: nat): Value
    requires k <= n <= |arr|
    decreases n
  {
    if n == k then acc else cb(FoldRange(arr, cb, acc, k, n - 1), arr[n - 1], n - 1, arr)
  }

  /** Running iteration `k` first and then the rest is running them all. */
  lemma {:induction false} FoldRangeFirstStep(arr: seq<Value>, cb: Reducer, acc: Value, k: nat, n: nat)
    requires k < n <= |arr|
    ensures FoldRange(arr, cb, acc, k, n) == FoldRange(arr, cb, cb(acc, arr[k], k, arr), k + 1, n)
    decreases n
  {
    if n > k + 1 {
      FoldRangeFirstStep(arr, cb, acc, k, n - 1);
    }
  }

  /**
    Combines `acc` with the elements from index `k` on, left to right: the
    accumulator the loop holds once its iterations from `k` to the end ran.
   */
  function FoldFrom(arr: seq<Value>, cb: Reducer, acc: Value, k: nat): (r: Value)
    requires k <= |arr|
    ensures r == FoldRange(arr, cb, acc, k, |arr|)
    decreases |arr| - k
  {
    if k == |arr| then acc
    else
      FoldRangeFirstStep(arr, cb, acc, k, |arr|);
      FoldFrom(arr, cb, cb(acc, arr[k], k, arr), k + 1)
  }

  /**
    `myReduce`: starts from `total || arr[0]` and combines it with every
    element from index 0 on (`undefined` passed as `total` means "no
    initial value").
   */
  method MyReduce(arr: seq<Value>, cb: Reducer, total: Value) returns (result: Value)
    ensures result == FoldFrom(arr, cb, StartValue(arr, total), 0)
  {
    result := StartValue(arr, total);
    for i := 0 to |arr|
      invariant FoldFrom(arr, cb, result, i) == FoldFrom(arr, cb, StartValue(arr, total), 0)
    {
      result := cb(result, DeepClone(arr[i]), i, arr);
    }
  }

  /** How ECMA-262's Array.prototype.reduce ends: a value, or a thrown TypeError. */
  datatype Completion = Normal(value: Value) | ThrowTypeError

  datatype Option<T> = None | Some(value: T)

  /**
    Array.prototype.reduce as ECMA-262 section 23.1.3 defines it: with an
    initial value (whatever its truthiness) every element is combined once;
    without one, an empty array throws a TypeError, and otherwise the fold
    starts from `arr[0]` at index 1.
   */
  function EcmaReduce(arr: seq<Value>, cb: Reducer, initial: Option<Value>): Completion {
    match initial
    case Some(v) => Normal(FoldFrom(arr, cb, v, 0))
    case None => if arr == [] then ThrowTypeError else Normal(FoldFrom(arr, cb, arr[0], 1))
  }

  /** With a truthy initial value, `myReduce` agrees with the standard. */
  lemma SourceReduceTruthyInitial(arr: seq<Value>, cb: Reducer, total: Value)
    requires Truthy(total)
    ensures EcmaReduce(arr, cb, Some(total)) == Normal(FoldFrom(arr, cb, StartValue(arr, total), 0))
  {
  }

  /**
    Without a truthy initial value, `myReduce` on a non-empty array first
    combines `arr[0]` with itself and then goes on as the standard would
    from that accumulator.
   */
  lemma SourceReduceFalsyInitial(arr: seq<Value>, cb: Reducer, total: Value)
    requires !Truthy(total) && arr != []
    ensures FoldFrom(arr, cb, StartValue(arr, total), 0)
         == FoldFrom(arr, cb, cb(arr[0], arr[0], 0, arr), 1)
  {
  }

  // A summing callback, to exhibit the difference on numbers.

  function NumberOf(v: Value): int {
    if v.Scalar? && v.p.Num? then v.p.n else 0
  }

  /** `(a, b) => a + b` on numbers. */
  function Add(acc: Value, x: Value, i: nat, a: seq<Value>): Value {
    Scalar(Num(NumberOf(acc) + NumberOf(x)))
  }

  function Nums(xs: seq<int>): (arr: seq<Value>)
    ensures |arr| == |xs| && forall i :: 0 <= i < |xs| ==> arr[i] == Scalar(Num(xs[i]))
  {
    seq(|xs|, i requires 0 <= i < |xs| => Scalar(Num(xs[i])))
  }

  function SumFrom(xs: seq<int>, k: nat): int
    requires k <= |xs|
    decreases |xs| - k
  {
    if k == |xs| then 0 else xs[k] + SumFrom(xs, k + 1)
  }

  function Sum(xs: seq<int>): int {
    SumFrom(xs, 0)
  }

  /** Folding `Add` from index k adds the remaining numbers to the accumulator. */
  lemma {:induction false} FoldAddFrom(xs: seq<int>, a: int, k: nat)
    requires k <= |xs|
    ensures FoldFrom(Nums(xs), Add, Scalar(Num(a)), k) == Scalar(Num(a + SumFrom(xs, k)))
    decreases |xs| - k
  {
    if k < |xs| {
      FoldAddFrom(xs, a + xs[k], k + 1);
    }
  }

  /**
    As written: summing a non-empty array of numbers with `myReduce` and a
    falsy initial value (none, or 0) counts the first number twice.
   */
  lemma SourceReduceAdd(xs: seq<int>, total: Value)
    requires xs != [] && !Truthy(total)
    ensures FoldFrom(Nums(xs), Add, StartValue(Nums(xs), total), 0) == Scalar(Num(xs[0] + Sum(xs)))
  {
    FoldAddFrom(xs, xs[0], 0);
  }

  /**
    Corrected: the standard reduce sums every number exactly once, with or
    without an initial value, and throws on an empty array without one.
   */
  lemma EcmaReduceAdd(xs: seq<int>, initial: Option<int>)
    ensures initial.Some? ==>
      EcmaReduce(Nums(xs), Add, Some(Scalar(Num(initial.value)))) == Normal(Scalar(Num(initial.value + Sum(xs))))
    ensures initial.None? && xs != [] ==>
      EcmaReduce(Nums(xs), Add, None) == Normal(Scalar(Num(Sum(xs))))
    ensures initial.None? && xs == [] ==> EcmaReduce(Nums(xs), Add, None) == ThrowTypeError
  {
    match initial
    case Some(a) => FoldAddFrom(xs, a, 0);
    case None =>
      if xs != [] {
        FoldAddFrom(xs, xs[0], 1);
      }
  }

  /**
    `[1, 2, 3].myReduce((a, b) => a + b)` and `[1, 2, 3].myReduce((a, b) => a + b, 0)`
    both give 7, where the standard gives 6.
   */
  lemma ReduceSumCounterexample(xs: seq<int>)
    requires xs == [1, 2, 3]
    ensures FoldFrom(Nums(xs), Add, StartValue(Nums(xs), undefined), 0) == Scalar(Num(7))
    ensures FoldFrom(Nums(xs), Add, StartValue(Nums(xs), Scalar(Num(0))), 0) == Scalar(Num(7))
    ensures EcmaReduce(Nums(xs), Add, None) == Normal(Scalar(Num(6)))
    ensures EcmaReduce(Nums(xs), Add, Some(Scalar(Num(0)))) == Normal(Scalar(Num(6)))
  {
    assert Sum(xs) == 6 by {
      assert SumFrom(xs, 3) == 0;
      assert SumFrom(xs, 2) == 3;
      assert SumFrom(xs, 1) == 5;
    }
    SourceReduceAdd(xs, undefined);
    SourceReduceAdd(xs, Scalar(Num(0)));
    EcmaReduceAdd(xs, None);
    EcmaReduceAdd(xs, Some(0));
  }
}
