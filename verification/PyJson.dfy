/** Already-parsed JSON as Python sees it: exact types on the one hand, `==` across number types on the other. */
module PyJson {
  datatype Json =
    | Null
    | Bool(b: bool)
    | Int(n: int)
    | Float(r: real)
    | Str(s: string)
    | Arr(items: seq<Json>)
    | Obj(fields: map<string, Json>)

  predicate IsNumber(j: Json) {
    j.Bool? || j.Int? || j.Float?
  }

  /** `True`, `1` and `1.0` are one number. */
  function Number(j: Json): real
    requires IsNumber(j)
  {
    match j
    case Bool(b) => if b then 1.0 else 0.0
    case Int(n) => n as real
    case Float(r) => r
  }

  /** Python's `==`. */
  predicate PyEq(a: Json, b: Json)
    decreases a
  {
    match (a, b)
    case (Arr(x), Arr(y)) => |x| == |y| && forall i :: 0 <= i < |x| ==> PyEq(x[i], y[i])
    case (Obj(x), Obj(y)) => x.Keys == y.Keys && forall k :: k in x.Keys ==> PyEq(x[k], y[k])
    case _ => if IsNumber(a) && IsNumber(b) then Number(a) == Number(b) else a == b
  }

  /** It is an equivalence, whatever number types are mixed. */
  lemma {:induction false} PyEqIsReflexive(a: Json)
    ensures PyEq(a, a)
    decreases a
  {
    match a
    case Arr(x) => forall i | 0 <= i < |x| ensures PyEq(x[i], x[i]) { PyEqIsReflexive(x[i]); }
    case Obj(x) => forall k | k in x.Keys ensures PyEq(x[k], x[k]) { PyEqIsReflexive(x[k]); }
    case _ =>
  }

  lemma {:induction false} PyEqIsSymmetric(a: Json, b: Json)
    requires PyEq(a, b)
    ensures PyEq(b, a)
    decreases a
  {
    if a.Arr? && b.Arr? {
      forall i | 0 <= i < |a.items| ensures PyEq(b.items[i], a.items[i]) { PyEqIsSymmetric(a.items[i], b.items[i]); }
    } else if a.Obj? && b.Obj? {
      forall k | k in a.fields.Keys ensures PyEq(b.fields[k], a.fields[k]) {
        PyEqIsSymmetric(a.fields[k], b.fields[k]);
      }
    }
  }

  lemma {:induction false} PyEqIsTransitive(a: Json, b: Json, c: Json)
    requires PyEq(a, b) && PyEq(b, c)
    ensures PyEq(a, c)
    decreases a
  {
    if a.Arr? && b.Arr? && c.Arr? {
      forall i | 0 <= i < |a.items| ensures PyEq(a.items[i], c.items[i]) {
        PyEqIsTransitive(a.items[i], b.items[i], c.items[i]);
      }
    } else if a.Obj? && b.Obj? && c.Obj? {
      forall k | k in a.fields.Keys ensures PyEq(a.fields[k], c.fields[k]) {
        PyEqIsTransitive(a.fields[k], b.fields[k], c.fields[k]);
      }
    }
  }

  /** `j.get(key)` of an object; absent reads as `None`. */
  function Get(j: Json, key: string): Json {
    if j.Obj? && key in j.fields then j.fields[key] else Null
  }

  predicate HasKeys(j: Json, keys: set<string>) {
    j.Obj? && j.fields.Keys == keys
  }

  predicate IntIn(j: Json, low: int, high: int) {
    j.Int? && low <= j.n <= high
  }

  /** `len(j)`, where it has one. */
  predicate HasLength(j: Json) {
    j.Str? || j.Arr? || j.Obj?
  }

  function Length(j: Json): nat
    requires HasLength(j)
  {
    match j
    case Str(s) => |s|
    case Arr(items) => |items|
    case Obj(fields) => |fields|
  }
}
