/**
 * The JavaScript values the `/api/events` handler reads out of search hits and
 * MaxMind records (decoded JSON), with the three operators it combines them with:
 * `||` (truthiness), `??` (nullish coalescing) and property access.
 */
module JsValue {
  import opened Wrappers

  /** A decoded JSON value, plus `Undefined` for a property that is not there. */
  datatype Value =
    | Undefined
    | Null
    | Bool(b: bool)
    | Num(n: real)
    | Str(s: string)
    | Arr(elems: seq<Value>)
    | Obj(fields: map<string, Value>)

  /** `{}` */
  const EmptyObject: Value := Obj(map[])

  /** JavaScript truthiness: undefined, null, false, 0 and "" are the falsy values of JSON. */
  predicate Truthy(v: Value) {
    match v
    case Undefined => false
    case Null => false
    case Bool(b) => b
    case Num(n) => n != 0.0
    case Str(s) => s != ""
    case Arr(_) => true
    case Obj(_) => true
  }

  /** The values `??` and `?.` treat as missing. */
  predicate Nullish(v: Value) {
    v.Undefined? || v.Null?
  }

  /**
   * `v.key` for a non-nullish `v`, and `v?.key` for any `v`: the field when `v` is an
   * object that has it, `undefined` otherwise (none of the keys the handler reads is an
   * inherited property of a primitive or of Object.prototype).
   */
  function Get(v: Value, key: string): Value {
    if v.Obj? && key in v.fields then v.fields[key] else Undefined
  }

  /** `a || b` */
  function Or(a: Value, b: Value): Value {
    if Truthy(a) then a else b
  }

  /** `a ?? b` */
  function Coalesce(a: Value, b: Value): Value {
    if Nullish(a) then b else a
  }

  /** `i` is the first position of `vs` that holds a truthy value. */
  predicate FirstTruthy(vs: seq<Value>, i: int) {
    0 <= i < |vs| && Truthy(vs[i]) && forall j :: 0 <= j < i ==> !Truthy(vs[j])
  }

  predicate NoneTruthy(vs: seq<Value>) {
    forall j :: 0 <= j < |vs| ==> !Truthy(vs[j])
  }

  /** `i` is the first position of `vs` that holds a value other than null and undefined. */
  predicate FirstPresent(vs: seq<Value>, i: int) {
    0 <= i < |vs| && !Nullish(vs[i]) && forall j :: 0 <= j < i ==> Nullish(vs[j])
  }

  predicate AllNullish(vs: seq<Value>) {
    forall j :: 0 <= j < |vs| ==> Nullish(vs[j])
  }

  /**
   * `vs[0] || vs[1] || ... || vs[n-1]`, grouped to the left as JavaScript parses it.
   * It is the first truthy operand, or the last operand when none is truthy.
   */
  function OrChain(vs: seq<Value>): (r: Value)
    requires |vs| > 0
    ensures forall i :: FirstTruthy(vs, i) ==> r == vs[i]
    ensures NoneTruthy(vs) ==> r == vs[|vs| - 1]
    ensures Truthy(r) <==> !NoneTruthy(vs)
    decreases |vs|
  {
    if |vs| == 1 then vs[0]
    else
      var init := vs[..|vs| - 1];
      assert forall j :: 0 <= j < |init| ==> init[j] == vs[j];
      Or(OrChain(init), vs[|vs| - 1])
  }

  /**
   * `vs[0] ?? vs[1] ?? ... ?? vs[n-1]`, grouped to the left. It is the first operand
   * that is neither null nor undefined, or the last operand when all of them are.
   */
  function CoalesceChain(vs: seq<Value>): (r: Value)
    requires |vs| > 0
    ensures forall i :: FirstPresent(vs, i) ==> r == vs[i]
    ensures AllNullish(vs) ==> r == vs[|vs| - 1]
    ensures Nullish(r) <==> AllNullish(vs)
    decreases |vs|
  {
    if |vs| == 1 then vs[0]
    else
      var init := vs[..|vs| - 1];
      assert forall j :: 0 <= j < |init| ==> init[j] == vs[j];
      Coalesce(CoalesceChain(init), vs[|vs| - 1])
  }

  /** Every callback before position `i` returns normally. */
  predicate ReturnsBefore<A, B, E>(xs: seq<A>, f: A -> Result<B, E>, i: int)
    requires 0 <= i <= |xs|
  {
    forall j :: 0 <= j < i ==> f(xs[j]).Success?
  }

  /**
   * `xs.map(f)` for a callback that may throw (`Failure`): the callbacks run in order, and
   * the first one that throws ends the map with its exception. Otherwise the result has
   * one element per element of `xs`, each the callback's value for it.
   */
  function MapOrThrow<A, B, E>(xs: seq<A>, f: A -> Result<B, E>): (r: Result<seq<B>, E>)
    ensures r.Success? <==> ReturnsBefore(xs, f, |xs|)
    ensures r.Success? ==> (
      && |r.value| == |xs|
      && forall i :: 0 <= i < |xs| ==> f(xs[i]) == Success(r.value[i]))
    ensures r.Failure? ==> (exists i :: (
      && 0 <= i < |xs|
      && ReturnsBefore(xs, f, i)
      && f(xs[i]) == Failure(r.error)))
    decreases |xs|
  {
    if xs == [] then Success([])
    else
      match f(xs[0])
      case Failure(e) =>
        assert ReturnsBefore(xs, f, 0);
        Failure(e)
      case Success(y) =>
        match MapOrThrow(xs[1..], f)
        case Failure(e) =>
          assert exists i :: 0 <= i < |xs| && ReturnsBefore(xs, f, i) && f(xs[i]) == Failure(e) by {
            var i :| 0 <= i < |xs| - 1 && ReturnsBefore(xs[1..], f, i) && f(xs[1..][i]) == Failure(e);
            forall j | 0 <= j < i + 1 ensures f(xs[j]).Success? {
              if j > 0 { assert xs[j] == xs[1..][j - 1]; }
            }
            assert ReturnsBefore(xs, f, i + 1) && f(xs[i + 1]) == Failure(e);
          }
          Failure(e)
        case Success(ys) =>
          assert ReturnsBefore(xs, f, |xs|) by {
            forall j | 0 <= j < |xs| ensures f(xs[j]).Success? {
              if j > 0 { assert xs[j] == xs[1..][j - 1]; }
            }
          }
          Success([y] + ys)
  }
}
