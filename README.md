# jj: a dynamically-typed JSON accessor, modelled in Dafny

This project models `Value`, the read-only accessor of the Go library `jj`
(`jj.go`). A `Value` wraps one node of an already-decoded JSON tree. It offers
type inspection (`Type`, `IsObject`, ...), path traversal over string and int
keys (`AtOrError`, `At`), typed extraction in three tiers (`StringOrError` /
`String` / `StringOrDefault` and the same for numbers), container
materialisation (`MapOrError`, `Map`, `ListOrError`, `List`) and `KeysSorted`.

Files:

- `wrappers.dfy`: module `Wrappers`, the `Option` type. It stands for Go's nil pointers and nil errors.
- `lexicographic.dfy`: module `Lexicographic`. It holds Go's byte-wise string order (`Less`) and the in-place sort that stands in for `sort.Strings`.
- `jj.dfy`: module `JJ`, the accessor itself.

How the Go program is represented:

- A `*Value` is `Option<Json>`. `None` is the nil pointer, which stands for an absent node. `Some(j)` is a node whose `data` is the payload `j`.
- The payload is a closed datatype `Json` (null, bool, number, string, list, object). Numbers are `real`.
- Every Go `(value, err)` pair is `Ret(val, err)`. The zero value Go returns beside an error is kept: `""` or `0` for scalars; a nil map or slice for an absent node; an empty map or slice for a present node of the wrong shape.
- A Go panic becomes a precondition. `String`, `Number`, `Map` and `List` require that the error tier succeeds. `KeysSorted` requires an object. A traversal requires that no step indexes a list out of range (`PathSafe`), because `lst[key]` at jj.go:39 has no bounds check.
- Path keys are `KStr(name)` or `KIdx(index)`. A key that is neither cannot be built, so the panic at jj.go:40-41 cannot happen.
- The loops of `AtOrError`, `MapOrError`, `ListOrError` and `KeysSorted` are Dafny methods with loops. `AtOrError` is proved equal to the recursive function `Navigate`. The other three are proved against contracts that state their whole result.

Two behaviours of the code worth knowing. The model reproduces both:

- A list index is not bounds-checked (jj.go:39). An out-of-range or negative index panics; it does not give the absent node. The model puts such an index outside the domain through `PathSafe`.
- A missing map key yields nil with no error (jj.go:33). An error appears only when a later key tries to navigate into that nil (jj.go:155-156, jj.go:179-180).

## Model

| member | source | states |
|---|---|---|
| `JJ.TypeClassification` | jj.go:52-96 | The contract of `TypeOf` (`Value.Type`) and the six `Is*` predicates. An absent node and a null payload both have type Null. Each `Is*` predicate holds exactly for its own payload shape. Exactly one of the six holds for any node. |
| `JJ.StringOrError` | jj.go:98-109 | The call succeeds iff the node is a string. An absent node gives NoSuchKey; any other present shape gives NotAString. On success the result is the payload; on error it is `""`. |
| `JJ.String` | jj.go:110-116 | Callable only when `StringOrError` succeeds; returns the node's string payload. |
| `JJ.StringOrDefault` | jj.go:118-124 | Returns the default exactly when `StringOrError` errs. Otherwise returns the node's string payload. |
| `JJ.TruncateTowardZero` | jj.go:130-132 | The float-to-int64 conversion truncates toward zero. The result keeps the sign of its input and is less than one away from it. |
| `JJ.NumberOrError` | jj.go:126-136 | The call succeeds iff the node is a number. An absent node gives NoSuchKey; any other present shape gives NotANumber. On success the result is the truncated payload; on error it is 0. |
| `JJ.Number` | jj.go:138-144 | Callable only when `NumberOrError` succeeds; returns the truncated numeric payload. |
| `JJ.NumberOrDefault` | jj.go:146-152 | Returns the default exactly when `NumberOrError` errs. Otherwise returns the truncated numeric payload. |
| `JJ.MapOrError` | jj.go:154-168 | An absent node gives a nil map with NoSuchKey. A present non-object gives an empty map with NotAMap. An object gives no error and a map with exactly the object's keys, each wrapping its child. |
| `JJ.Map` | jj.go:170-176 | Callable only on an object. Returns the object's keys, each wrapping its child. |
| `JJ.ListOrError` | jj.go:178-191 | An absent node gives a nil slice with NoSuchKey. A present non-list gives an empty slice with NotAList. A list gives no error and a sequence of the same length, wrapping each child in order. |
| `JJ.List` | jj.go:193-199 | Callable only on a list. Returns the children in order, each wrapped. |
| `JJ.Child` | jj.go:26-42 | One traversal step. A step from an absent node fails with NoSuchKey. A string key on a non-object fails with NotAMap, an int key on a non-list with NotAList. Every failure leaves the result absent. A string key on an object succeeds without error; the result is the child, or absent iff the key is missing. An in-range int key on a list succeeds with exactly that child. |
| `JJ.Navigate` | jj.go:24-45 | Keys are followed left to right and the first error stops the walk. An error always comes with an absent node. The empty path returns the receiver unchanged with no error. A non-empty path from an absent node fails with NoSuchKey. |
| `JJ.AtOrError` | jj.go:24-45 | The loop that updates `obj` key by key returns exactly `Navigate` of the receiver and the keys. |
| `JJ.At` | jj.go:47-50 | Returns the node `Navigate` reaches, discarding the error. The result is absent whenever the traversal errs. |
| `JJ.AbsentStaysAbsent` | jj.go:29-38 | Navigation from an absent node never panics and stays absent. Any non-empty path from it fails with NoSuchKey. |
| `JJ.NavigateAppend` | jj.go:24-45 | Following `p + q` equals following `p`, then following `q` from where `p` ended, unless `p` already erred. Within `p + q`'s index bounds, both halves are inside their bounds. |
| `JJ.AtChaining` | jj.go:47-50 | `v.At(p..., q...)` equals `v.At(p...).At(q...)`, also when `p` ends absent. |
| `JJ.PathSafeAppend` | jj.go:24-45 | If `p` stays within index bounds and `q` stays within them from where `p` ends, then `p + q` stays within them. Together with `NavigateAppend`, the one-call and chained forms have the same domain. |
| `JJ.AtChainingFromParts` | jj.go:47-50 | The chaining law holds whenever the chained form `v.At(p...).At(q...)` is within index bounds. |
| `JJ.NavigateSingleKey` | jj.go:26-42 | A one-key path is exactly one traversal step. So `Child`'s cases (missing key gives absent with no error; an in-range index gives that child) hold for `AtOrError` and `At` on one key. |
| `JJ.KeysSorted` | jj.go:201-211 | Callable only on an object. The result has one entry per key and holds every key exactly once. It is strictly ascending in byte order. |
| `JJ.KeysSortedExample` | jj_test.go:24 | The contract of `KeysSorted` fixes its result. For an object with keys foo, baz and bar, the result is `["bar", "baz", "foo"]`. |
| `JJ.KeysSortedOnTestDocument` | jj_test.go:8-24 | Calls `KeysSorted` on the test document `{"foo": "bar", "baz": 3, "bar": {...}}` and returns exactly `["bar", "baz", "foo"]`. |
| `Lexicographic.SortStrings` | jj.go:209 | Sorts the array in place into ascending byte order. The result is a permutation of the input. |
| `Lexicographic.StrictlyAscendingUnique` | jj.go:209 | Two strictly ascending sequences with the same elements are equal, so a sorted key list is unique. |

## Left out

- `UnmarshalJSON` (jj.go:213-215) only delegates to Go's `encoding/json` decoder. The decoded `Json` tree is taken as given.
- Encoding a `Value` back to JSON is entirely `encoding/json` behaviour, so the serialisation round trip is not modelled.
- `JJ.TruncateTowardZero`: numbers are unbounded `real`s. IEEE floating point, NaN, infinities and the int64 overflow of `int64(d)` are not modelled.
- `JJ.NumberOrError`: the result is an unbounded `int`, not an `int64`. This follows from the line above.
- The "unknown type" panic of `Type` (jj.go:69-70) cannot occur, because the payload is a closed datatype.
- The "neither int nor string" panic of `AtOrError` (jj.go:40-41) cannot occur, because a `Key` is one or the other.
- Pointer identity of the wrappers that `MapOrError` and `ListOrError` allocate (jj.go:165, jj.go:188) is not modelled. Values are immutable, so only their contents are modelled.
- Go's map iteration order is nondeterministic. `MapOrError` and `KeysSorted` pick keys in an arbitrary order, and their contracts do not depend on that order.
- The exact error message strings are replaced by the constructors of `Error`.
- `sort.Strings` is replaced by an insertion sort. Only its result is claimed to match: sorted, and a permutation of the input.
- Panics are not modelled as outcomes. Each one is a precondition of the member that would panic.
