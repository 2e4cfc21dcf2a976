/** JSON-shaped values as the pipeline handles them after `json.loads`, with
    Python's truthiness, dict lookup and dict assignment written out. */
module Json {

  datatype Option<+T> = None | Some(value: T)

  /** The outcome of a computation that may raise a Python exception. */
  datatype Result<+T> = Ok(value: T) | Raised(error: string)

  /** A JSON value. A Python dict is kept as its entries in insertion order. */
  datatype Value =
    | Null
    | Bool(b: bool)
    | Num(n: real)
    | Str(s: string)
    | Arr(items: seq<Value>)
    | Obj(entries: seq<(string, Value)>)

  /** A Python dict with string keys: one record of the pipeline. */
  type Dict = seq<(string, Value)>

  /** What one call of the language-model service gives back: the parsed JSON
      of its answer, or the text of the exception that the call or the parse raised. */
  datatype Reply = Answer(value: Value) | CallFailed(message: string)

  /** Python's `bool(v)`. */
  predicate Truthy(v: Value) {
    match v
    case Null => false
    case Bool(b) => b
    case Num(n) => n != 0.0
    case Str(s) => s != ""
    case Arr(items) => items != []
    case Obj(entries) => entries != []
  }

  /** True when `d` has an entry with key `k`. */
  predicate HasKey(d: Dict, k: string) {
    exists i :: 0 <= i < |d| && d[i].0 == k
  }

  /** `d.get(k)`: the value of the (first) entry with key `k`, if any. */
  function Get(d: Dict, k: string): Option<Value> {
    if d == [] then None
    else if d[0].0 == k then Some(d[0].1)
    else Get(d[1..], k)
  }

  /** `d.get(k)` finds a value exactly when the key is present, and the value
      it finds is stored under that key. */
  lemma {:induction false} GetSpec(d: Dict, k: string)
    ensures Get(d, k).Some? <==> HasKey(d, k)
    ensures Get(d, k).Some? ==> (k, Get(d, k).value) in d
  {
    if d != [] && d[0].0 != k {
      GetSpec(d[1..], k);
      HasKeyTail(d, k);
    }
  }

  /** `d.get(k)` is the value of the first entry with key `k`. */
  lemma {:induction false} GetAt(d: Dict, k: string, i: int)
    requires 0 <= i < |d| && d[i].0 == k
    requires forall j :: 0 <= j < i ==> d[j].0 != k
    ensures Get(d, k) == Some(d[i].1)
  {
    if i > 0 {
      GetAt(d[1..], k, i - 1);
    }
  }

  /** A key that is not first is present exactly when it is present after the first entry. */
  lemma HasKeyTail(d: Dict, k: string)
    requires d != [] && d[0].0 != k
    ensures HasKey(d, k) <==> HasKey(d[1..], k)
  {
    if HasKey(d, k) {
      var i :| 0 <= i < |d| && d[i].0 == k;
      assert d[1..][i - 1].0 == k;
    }
    if HasKey(d[1..], k) {
      var i :| 0 <= i < |d[1..]| && d[1..][i].0 == k;
      assert d[i + 1].0 == k;
    }
  }

  /** `d.get(k, default)`. */
  function GetOr(d: Dict, k: string, default: Value): Value {
    match Get(d, k)
    case Some(v) => v
    case None => default
  }

  /** `d[k] = v`: an existing entry keeps its place, a new key goes last. */
  function Put(d: Dict, k: string, v: Value): Dict {
    if d == [] then [(k, v)]
    else if d[0].0 == k then [(k, v)] + d[1..]
    else [d[0]] + Put(d[1..], k, v)
  }

  /** After `d[k] = v`, `d.get(k)` is `v`. */
  lemma {:induction false} PutGet(d: Dict, k: string, v: Value)
    ensures Get(Put(d, k, v), k) == Some(v)
  {
    if d != [] && d[0].0 != k {
      PutGet(d[1..], k, v);
      assert Put(d, k, v)[1..] == Put(d[1..], k, v);
    }
  }

  /** `d[k] = v` changes no other key. */
  lemma {:induction false} PutOther(d: Dict, k: string, v: Value, other: string)
    requires other != k
    ensures Get(Put(d, k, v), other) == Get(d, other)
  {
    if d != [] && d[0].0 != k && d[0].0 != other {
      PutOther(d[1..], k, v, other);
      assert Put(d, k, v)[1..] == Put(d[1..], k, v);
    }
  }

  /** `d[k] = v` changes no other key, for every other key at once. */
  lemma PutOthers(d: Dict, k: string, v: Value)
    ensures forall other :: other != k ==> Get(Put(d, k, v), other) == Get(d, other)
  {
    forall other | other != k
      ensures Get(Put(d, k, v), other) == Get(d, other)
    {
      PutOther(d, k, v, other);
    }
  }

  /** `d[k] = v` grows the dict by one entry exactly when `k` is new. */
  lemma {:induction false} PutLength(d: Dict, k: string, v: Value)
    ensures |Put(d, k, v)| == if HasKey(d, k) then |d| else |d| + 1
  {
    if d != [] && d[0].0 != k {
      PutLength(d[1..], k, v);
      HasKeyTail(d, k);
    } else if d != [] {
      assert HasKey(d, k) by { assert d[0].0 == k; }
    }
  }

  /** Python's `str(v)` for the values whose rendering the model spells out;
      `show` stands for the rendering of numbers, lists and dicts. */
  function PyStr(v: Value, show: Value -> string): string {
    match v
    case Str(s) => s
    case Null => "None"
    case Bool(b) => if b then "True" else "False"
    case _ => show(v)
  }

  /** The values `len()` accepts. */
  predicate Sized(v: Value) {
    v.Str? || v.Arr? || v.Obj?
  }

  /** Python's `len(v)`. */
  function PyLen(v: Value): nat
    requires Sized(v)
  {
    match v
    case Str(s) => |s|
    case Arr(items) => |items|
    case Obj(entries) => |entries|
  }

  /** `v and v not in [None, "null", ""]`: the test the scorers use for a
      filled value (an empty list or dict is already falsy). */
  predicate Filled(v: Value) {
    Truthy(v) && v != Null && v != Str("null") && v != Str("")
  }

  /** `v and v not in [None, "null", "", "N/A", "Unknown"]`: the stricter test
      applied to critical fields. */
  predicate FilledCritical(v: Value) {
    Filled(v) && v != Str("N/A") && v != Str("Unknown")
  }

  /** The number of values of a dict that are `Filled`. */
  function FilledCount(entries: Dict): (n: nat)
    ensures n <= |entries|
  {
    if entries == [] then 0
    else FilledCount(entries[..|entries| - 1]) + (if Filled(entries[|entries| - 1].1) then 1 else 0)
  }

  /** A dict whose every value is filled has a full filled count. */
  lemma {:induction false} FilledCountFull(entries: Dict)
    requires forall i :: 0 <= i < |entries| ==> Filled(entries[i].1)
    ensures FilledCount(entries) == |entries|
  {
    if entries != [] {
      FilledCountFull(entries[..|entries| - 1]);
    }
  }

  /** Python's `round(y)`: the nearest whole number, a tie going to the even
      one. */
  function RoundHalfEven(y: real): int {
    var f := y.Floor;
    var d := y - f as real;
    if d < 0.5 then f else if d > 0.5 then f + 1 else if f % 2 == 0 then f else f + 1
  }

  /** The rounded number is at most one half away, and even on a tie; these
      two facts determine it. */
  lemma RoundHalfEvenNearest(y: real)
    ensures var n := RoundHalfEven(y);
            y - 0.5 <= n as real <= y + 0.5 &&
            ((n as real - y == 0.5 || y - n as real == 0.5) ==> n % 2 == 0)
  {
  }

  /** Python's `round(x, 1)`, on the exact value: the nearest tenth, a tie
      going to the even last digit. */
  function Round1(x: real): real {
    RoundHalfEven(x * 10.0) as real / 10.0
  }

  /** Rounding to a tenth stays within the tenths that bound the value. */
  lemma RoundedRange(x: real, lo: int, hi: int)
    requires lo as real <= x * 10.0 <= hi as real
    ensures lo as real / 10.0 <= Round1(x) <= hi as real / 10.0
  {
    var n := RoundHalfEven(x * 10.0);
    RoundHalfEvenNearest(x * 10.0);
    assert lo - 1 < n < hi + 1;
  }

  /** A rounded value reaches an even number of tenths `k` exactly when the
      value is at least half a tenth below it: the tie rounds up to `k`. */
  lemma RoundedAtLeast(x: real, k: int)
    requires k % 2 == 0
    ensures Round1(x) >= k as real / 10.0 <==> x * 10.0 >= k as real - 0.5
  {
    var y := x * 10.0;
    var n := RoundHalfEven(y);
    RoundHalfEvenNearest(y);
    if n < k {
      if n == k - 1 {
        assert n % 2 != 0;
        assert y - n as real != 0.5;
      }
      assert y < k as real - 0.5;
    }
  }

  /** The name Python gives the type of a JSON value; a whole number stands
      for an `int`, any other number for a `float`. */
  function TypeName(v: Value): string {
    match v
    case Null => "NoneType"
    case Bool(_) => "bool"
    case Num(n) => if n.Floor as real == n then "int" else "float"
    case Str(_) => "str"
    case Arr(_) => "list"
    case Obj(_) => "dict"
  }

  /** The text of the exception raised by `v[:n]` when `v` is not a string
      or a list. */
  function SliceError(v: Value): string {
    if v.Obj? then "unhashable type: 'slice'" else "'" + TypeName(v) + "' object is not subscriptable"
  }

  /** Running steps that may raise, one after the other: all their values
      when none raises, otherwise the exception of the first that does. */
  function AllOrFirstError<T>(steps: seq<Result<T>>): (r: Result<seq<T>>)
    ensures r.Ok? <==> forall i :: 0 <= i < |steps| ==> steps[i].Ok?
    ensures r.Ok? ==> |r.value| == |steps| && forall i :: 0 <= i < |steps| ==> r.value[i] == steps[i].value
    ensures r.Raised? ==> exists i :: 0 <= i < |steps| && steps[i].Raised? && r.error == steps[i].error &&
                                      forall j :: 0 <= j < i ==> steps[j].Ok?
  {
    if steps == [] then Ok([])
    else if steps[0].Raised? then Raised(steps[0].error)
    else match AllOrFirstError(steps[1..])
      case Raised(e) => Raised(e)
      case Ok(values) => Ok([steps[0].value] + values)
  }

  /** The first `n` steps all succeeded. */
  predicate OkPrefix<T>(steps: seq<Result<T>>, n: nat)
    requires n <= |steps|
  {
    n == 0 || (OkPrefix(steps, n - 1) && steps[n - 1].Ok?)
  }

  lemma {:induction false} OkPrefixAll<T>(steps: seq<Result<T>>, n: nat)
    requires n <= |steps| && OkPrefix(steps, n)
    ensures forall j :: 0 <= j < n ==> steps[j].Ok?
  {
    if n > 0 {
      OkPrefixAll(steps, n - 1);
    }
  }

  /** A run whose first `i` steps succeeded fails with step `i`'s error. */
  lemma OkPrefixFirstError<T>(steps: seq<Result<T>>, i: nat)
    requires i < |steps| && OkPrefix(steps, i) && steps[i].Raised?
    ensures AllOrFirstError(steps) == Raised(steps[i].error)
  {
    OkPrefixAll(steps, i);
    FirstErrorAt(steps, i);
  }

  /** A run whose steps all succeeded succeeds. */
  lemma OkPrefixAllOk<T>(steps: seq<Result<T>>)
    requires OkPrefix(steps, |steps|)
    ensures AllOrFirstError(steps).Ok?
  {
    OkPrefixAll(steps, |steps|);
  }

  lemma FirstErrorAt<T>(steps: seq<Result<T>>, i: int)
    requires 0 <= i < |steps| && steps[i].Raised?
    requires forall j :: 0 <= j < i ==> steps[j].Ok?
    ensures AllOrFirstError(steps) == Raised(steps[i].error)
  {
    var r := AllOrFirstError(steps);
    var k :| 0 <= k < |steps| && steps[k].Raised? && r.error == steps[k].error && forall j :: 0 <= j < k ==> steps[j].Ok?;
    assert !(k < i) && !(i < k);
  }

  /** When no step raises, the run gives exactly their values. */
  lemma AllOkValues<T>(steps: seq<Result<T>>, values: seq<T>)
    requires |values| == |steps|
    requires forall j :: 0 <= j < |steps| ==> steps[j].Ok? && steps[j].value == values[j]
    ensures AllOrFirstError(steps) == Ok(values)
  {
    assert AllOrFirstError(steps).value == values;
  }
}
