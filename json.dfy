/**
 * JSON values as the integration loads and stores them, and the few Python
 * operations on them that the services and sensors use: `dict.get` with and
 * without a default, truthiness, equality (where `True == 1`) and f-string rendering.
 */
module Json {

  /** A JSON value. `Null` is Python's `None`; numbers are integers. */
  datatype Value =
    | Null
    | Bool(b: bool)
    | Num(n: int)
    | Str(s: string)
    | Arr(items: seq<Value>)
    | Obj(fields: map<string, Value>)

  /** `d.get(key)`: a missing key reads as `None`, like a present `None`. */
  function Get(d: map<string, Value>, key: string): Value
  {
    if key in d then d[key] else Null
  }

  /** `d.get(key, default)`: the default only replaces a MISSING key. */
  function GetOr(d: map<string, Value>, key: string, default: Value): Value
  {
    if key in d then d[key] else default
  }

  /** Python truthiness of a JSON value. */
  predicate Truthy(v: Value)
  {
    match v
    case Null => false
    case Bool(b) => b
    case Num(n) => n != 0
    case Str(s) => s != ""
    case Arr(items) => items != []
    case Obj(fields) => fields != map[]
  }

  /** The integer Python sees in a number or a boolean: `True` is 1 and `False` is 0. */
  function NumberOf(v: Value): int
    requires v.Bool? || v.Num?
  {
    if v.Num? then v.n else if v.b then 1 else 0
  }

  /**
   * Python's `a == b` on JSON values: booleans equal the numbers 1 and 0,
   * lists are equal element by element and dicts key by key.
   */
  predicate PyEq(a: Value, b: Value)
    decreases a
  {
    match a
    case Null => b == Null
    case Str(s) => b == Str(s)
    case Bool(_) => (b.Bool? || b.Num?) && NumberOf(a) == NumberOf(b)
    case Num(_) => (b.Bool? || b.Num?) && NumberOf(a) == NumberOf(b)
    case Arr(xs) => b.Arr? && |xs| == |b.items| && forall i :: 0 <= i < |xs| ==> PyEq(xs[i], b.items[i])
    case Obj(m) => b.Obj? && m.Keys == b.fields.Keys && forall k :: k in m ==> PyEq(m[k], b.fields[k])
  }

  /** Equal values are equal to Python. */
  lemma {:induction false} PyEqReflexive(a: Value)
    ensures PyEq(a, a)
    decreases a
  {
    match a
    case Arr(xs) =>
      forall i | 0 <= i < |xs| ensures PyEq(xs[i], xs[i]) {
        PyEqReflexive(xs[i]);
      }
    case Obj(m) =>
      forall k | k in m ensures PyEq(m[k], m[k]) {
        PyEqReflexive(m[k]);
      }
    case _ =>
  }

  lemma {:induction false} PyEqSymmetric(a: Value, b: Value)
    requires PyEq(a, b)
    ensures PyEq(b, a)
    decreases a
  {
    match a
    case Arr(xs) =>
      forall i | 0 <= i < |xs| ensures PyEq(b.items[i], xs[i]) {
        PyEqSymmetric(xs[i], b.items[i]);
      }
    case Obj(m) =>
      forall k | k in m ensures PyEq(b.fields[k], m[k]) {
        PyEqSymmetric(m[k], b.fields[k]);
      }
    case _ =>
  }

  lemma PyEqCommutes(a: Value, b: Value)
    ensures PyEq(a, b) <==> PyEq(b, a)
  {
    if PyEq(a, b) {
      PyEqSymmetric(a, b);
    }
    if PyEq(b, a) {
      PyEqSymmetric(b, a);
    }
  }

  lemma {:induction false} PyEqTransitive(a: Value, b: Value, c: Value)
    requires PyEq(a, b) && PyEq(b, c)
    ensures PyEq(a, c)
    decreases a
  {
    match a
    case Arr(xs) =>
      forall i | 0 <= i < |xs| ensures PyEq(xs[i], c.items[i]) {
        PyEqTransitive(xs[i], b.items[i], c.items[i]);
      }
    case Obj(m) =>
      forall k | k in m ensures PyEq(m[k], c.fields[k]) {
        PyEqTransitive(m[k], b.fields[k], c.fields[k]);
      }
    case _ =>
  }

  /** Only `None` equals `None`; `True` equals `1`, also inside a list. */
  lemma PyEqExamples(v: Value)
    ensures PyEq(v, Null) <==> v == Null
    ensures PyEq(Bool(true), Num(1)) && PyEq(Arr([Bool(false)]), Arr([Num(0)]))
    ensures !PyEq(Bool(true), Num(2)) && !PyEq(Str("1"), Num(1))
  {
  }

  /** Python's `v == 0`. */
  predicate EqualsZero(v: Value)
  {
    PyEq(v, Num(0))
  }

  /** Exactly `0` and `False` equal `0`. */
  lemma EqualsZeroValues(v: Value)
    ensures EqualsZero(v) <==> v == Num(0) || v == Bool(false)
  {
  }

  /** Decimal digits of a natural number. */
  function NatToString(n: nat): (r: string)
    ensures r != []
    ensures forall i :: 0 <= i < |r| ==> '0' <= r[i] <= '9'
    decreases n
  {
    var digit := ['0' + (n % 10) as char];
    if n < 10 then digit else NatToString(n / 10) + digit
  }

  /** `str(n)` of a Python integer. */
  function IntToString(n: int): string
  {
    if n < 0 then "-" + NatToString(-n) else NatToString(n)
  }

  /**
   * `f"{v}"`: how a value is rendered inside an f-string. Lists and dicts
   * are rendered by a placeholder rather than by Python's `repr`.
   */
  function Show(v: Value): string
  {
    match v
    case Null => "None"
    case Bool(b) => if b then "True" else "False"
    case Num(n) => IntToString(n)
    case Str(s) => s
    case Arr(_) => "[...]"
    case Obj(_) => "{...}"
  }
}
