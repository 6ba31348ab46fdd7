# Array and object helpers of `utils.js`, modelled in Dafny

`utils.js` re-implements several ECMAScript built-ins by hand. This project
models the parts that compute values:

- `deepClone`, a recursive structural copy;
- the array iteration helpers `myMap`, `myFilter`, `myEvery`, `mySome` and
  `myReduce` (ECMA-262 section 23.1.3 describes the built-ins they imitate);
- `Object.myEntries` and `Object.myFromEntries` (ECMA-262 section 20.1.2).

The model follows the code, including the places where it departs from the
standard:
- `myMap` and `myFilter` deep-clone what they store;
- `myEvery` and `mySome` never stop early;
- `myReduce` starts from `total || arr[0]` and still loops from index 0;
- `myEntries` returns `[]` for anything whose tag is not `[object Object]`.

Modules, one per concern:

- `values.dfy` (`Values`): JavaScript values as a closed datatype.
  - `Value = Scalar(Prim) | Arr(seq<Value>) | Obj(map<string, Value>)`.
  - `Prim` covers undefined, null, booleans, numbers and strings.
  - `Truthy` is ECMAScript ToBoolean.
  - `ToStringTag` is `Object.prototype.toString.call`.
  - `DeepClone` is `deepClone` as a pure recursive function.
- `array_methods.dfy` (`ArrayMethods`): each helper is a method with the
  source's loop over a `seq<Value>`.
  - Callbacks are pure functions of `(item, index, array)`.
  - Each method is proved against a specification: `Kept` gives the indices
    a filter keeps, and `FoldFrom` is a left fold from an index.
  - `EcmaReduce` is the standard reduce, used for the findings below.
- `object_methods.dfy` (`ObjectMethods`):
  - `MyEntries` walks an object's keys in any order.
  - `MyFromEntries` assigns entries in order.
  - `LastWriteWins` states what the built object holds. The round trip is
    proved from the two methods' postconditions.

The source says nothing of cyclic inputs: `deepClone` would recurse forever
on one. A value of the datatype is acyclic, so the model needs no cycle
check.

## Model

| member | source | states |
|---|---|---|
| Values.Truthy | utils.js:66 | the falsy values that `if (cb(...))`, `if (!cb(...))` and the default at utils.js:113 test for are exactly undefined, null, false, 0 and the empty string; arrays and objects are truthy |
| Values.DeepClone | utils.js:15-26 | primitives and null come back unchanged; arrays and objects are rebuilt with each element or own key cloned, so the clone is structurally equal to the input |
| Values.ToStringTag | utils.js:18 | the tag is `[object Array]` exactly for arrays and `[object Object]` exactly for plain objects, the tests `deepClone` and `myEntries` make |
| ArrayMethods.MyMap | utils.js:45-53 | the result has the input's length, and its element i is (a clone of) `cb(arr[i], i, arr)` |
| ArrayMethods.Kept | utils.js:65-70 | the indices `myFilter` keeps are in ascending order and are exactly those whose callback result is truthy; there are at most as many as elements |
| ArrayMethods.MyFilter | utils.js:60-72 | the result holds, in original order, (clones of) exactly the elements whose callback result is truthy; `index` equals the number kept, so the result is no longer than the input |
| ArrayMethods.MyEvery | utils.js:79-88 | the result is true iff the callback is truthy on every element (true for `[]`); the callback is applied to every index 0..length-1 in order |
| ArrayMethods.MySome | utils.js:95-104 | the result is true iff the callback is truthy on some element (false for `[]`); the callback is applied to every index 0..length-1 in order |
| ArrayMethods.StartValue | utils.js:113 | the default start `total`, else `arr[0]`: a truthy `total` is kept, otherwise `arr[0]`, or undefined for `[]`; the start is truthy iff `total` or `arr[0]` is |
| ArrayMethods.FoldFrom | utils.js:115-118 | folding from index k gives the accumulator the loop holds after running its iterations k..length-1 in order, each step `_total = cb(_total, arr[i], i, arr)` |
| ArrayMethods.MyReduce | utils.js:111-120 | the result is the left fold of the callback over all elements from index 0, starting from `total` if truthy, else `arr[0]` (undefined for `[]`) |
| ArrayMethods.SourceReduceTruthyInitial | utils.js:113-117 | with a truthy initial value `myReduce` gives what the standard reduce gives |
| ArrayMethods.SourceReduceFalsyInitial | utils.js:113-117 | with no or a falsy initial value, on a non-empty array, `myReduce` first combines `arr[0]` with itself and then folds from index 1 |
| ArrayMethods.SourceReduceAdd | utils.js:111-120 | summing a non-empty list of numbers with a falsy initial value gives the sum plus the first number |
| ArrayMethods.EcmaReduceAdd | utils.js:111-120 | the standard reduce sums each number once, with or without an initial value, and throws a TypeError for `[]` without one |
| ArrayMethods.ReduceSumCounterexample | utils.js:113-116 | `[1, 2, 3]` summed with no initial value or with 0 gives 7 here and 6 under the standard |
| ObjectMethods.MyEntries | utils.js:209-221 | a non-object (array or primitive) gives `[]`; a plain object gives one `[key, value]` entry per own key, keys distinct, each with its value, and no other entries |
| ObjectMethods.EntriesCount | utils.js:209-221 | a list of a plain object's entries (as `myEntries` returns) is exactly as long as the object has own keys |
| ObjectMethods.LastIndexBefore | utils.js:229-231 | the result is the index of the last entry with the key among the first n, or -1 if none has it |
| ObjectMethods.MyFromEntries | utils.js:227-233 | the result is a plain object whose keys are exactly the keys of the entries, each holding the value of the last entry with that key |
| ObjectMethods.LaterEntryOverwrites | utils.js:229-231 | an entry that no later entry overrides decides the value under its key |
| ObjectMethods.LastWriteWinsUnique | utils.js:227-233 | the list of entries determines the built object |
| ObjectMethods.EntriesRoundTrip | utils.js:209-233 | building an object from the entries of a plain object gives back the same keys and values, whatever order the entries come in |

## Left out

- `myForEach` (utils.js:33-39): its only effect is running the callback.
- `myCreate` and `myAssign` (utils.js:141-169): they depend on `__proto__`, property descriptors and `defineProperty`.
- `myFreeze`, `deepFreeze`, `mySeal` and `deepSeal` (utils.js:175-203, 240-264): they change property attributes and extensibility, which the value model does not have.
- Attaching the helpers to `Array.prototype` and `Object`, and the `obj = window` receiver of the callbacks: the helpers are free methods with the array as an argument.
- Callback side effects: callbacks are pure functions. So a callback cannot mutate the array it receives, and the order of calls is only shown, by `MyEvery` and `MySome`, as a list of indices.
- Numbers are integers: NaN, -0 and fractions are not modelled. Neither are functions, symbols, Date, RegExp and other special objects, or sparse arrays.
- Referential independence of a clone: values are immutable here. The model shows the clone equal to the input, but cannot say that no storage is shared.
- Inherited and non-enumerable properties: an `Obj` holds only own enumerable keys.
- DeepClone: an own key named `hasOwnProperty` makes the call `o.hasOwnProperty(k)` (utils.js:20) throw a TypeError, and an own key named `__proto__` is assigned through the prototype setter (utils.js:22), so the clone gets a new prototype and no such key. Neither is modelled: the contract claims a clone equal to the input for every value.
- MyMap: the `hasOwnProperty` TypeError and the `__proto__` setter of `deepClone` (utils.js:50) are not modelled.
- MyFilter: the `hasOwnProperty` TypeError and the `__proto__` setter of `deepClone` (utils.js:67) are not modelled.
- MyReduce: the `hasOwnProperty` TypeError and the `__proto__` setter of `deepClone` (utils.js:116) are not modelled.
- MyEntries: an own key named `hasOwnProperty` makes `o.hasOwnProperty(k)` (utils.js:213) throw a TypeError. This is not modelled: the contract lists the entries of every plain object.
- MyFromEntries: an entry whose key is `__proto__` runs the prototype setter at `_o[k] = v` (utils.js:230) and adds no key. This is not modelled: the contract puts every entry's key in the result.
- EntriesRoundTrip: because of the two cases above, the code's round trip fails for an object with an own `hasOwnProperty` or `__proto__` key. The lemma claims it for every map.
- `for...in` key order: objects are maps, so `MyEntries` may list keys in any order.
- MyFromEntries: entries are `(string, Value)` pairs. Destructuring of entries that are not two-element arrays, and coercion of non-string keys, are not modelled.
- MyMap: the contract states `target[i] == cb(arr[i], i, arr)`. It does not mention the clone, because `DeepClone` returns a value equal to its input.

## Findings

| source | as written | input that shows it | evidently intended | confidence | as-written member | corrected member |
|---|---|---|---|---|---|---|
| utils.js:113-116 | without an initial value the accumulator starts at `arr[0]` and the loop still starts at index 0, so `arr[0]` is combined twice | `[1, 2, 3].myReduce((a, b) => a + b)` gives 7 | start from `arr[0]` at index 1, as ECMA-262 section 23.1.3 does, giving 6 (TypeError on `[]`) | not executed | ArrayMethods.SourceReduceAdd | ArrayMethods.EcmaReduceAdd |
| utils.js:113 | an initial value that is falsy (0, `""`, `false`, `null`) is replaced by `arr[0]` | `[1, 2, 3].myReduce((a, b) => a + b, 0)` gives 7 | use any supplied initial value and fold from index 0, giving 6 | not executed | ArrayMethods.ReduceSumCounterexample | ArrayMethods.EcmaReduceAdd |

`MyReduce` models the code as written. `EcmaReduce` is the corrected definition, and `EcmaReduceAdd` is proved about it.
