/** The JSON-like values carried in the data array of a wire envelope, with
    the JavaScript notions the interceptors rely on: truthiness, `== null`,
    property reads and object spread. Numbers are integers; nothing here
    needs fractions. */
module JsValue {

  datatype Value =
    | Undefined
    | Null
    | Bool(b: bool)
    | Num(n: int)
    | Str(s: string)
    | Arr(items: seq<Value>)
    | Obj(fields: map<string, Value>)

  /** `v == null` (loose equality), i.e. `null` or `undefined`. */
  predicate Nullish(v: Value) {
    v.Undefined? || v.Null?
  }

  /** JavaScript truthiness: `false`, `0`, `""`, `null` and `undefined` are falsy. */
  predicate Truthy(v: Value) {
    match v
    case Undefined => false
    case Null => false
    case Bool(b) => b
    case Num(n) => n != 0
    case Str(s) => s != ""
    case Arr(_) => true
    case Obj(_) => true
  }

  /** `v[key]` for a non-nullish `v`: an own property of an object, and
      `undefined` for every other value (the interceptors never read built-in
      properties such as `length` through this). */
  function Prop(v: Value, key: string): Value {
    if v.Obj? && key in v.fields then v.fields[key] else Undefined
  }

  /** `key in v` for an object `v`. */
  predicate HasProp(v: Value, key: string) {
    v.Obj? && key in v.fields
  }

  /** `{ ...v, [key]: x }` */
  function WithProp(v: Value, key: string, x: Value): (r: Value)
    requires v.Obj?
    ensures r.Obj? && Prop(r, key) == x
    ensures forall k :: k != key ==> Prop(r, k) == Prop(v, k)
  {
    Obj(v.fields[key := x])
  }

  /** The property key of index `i`: its decimal digits. */
  function IndexKey(i: nat): (k: string)
    ensures |k| > 0
    ensures i < 10 <==> |k| == 1
  {
    var digit := (48 + i % 10) as char;
    if i < 10 then [digit] else IndexKey(i / 10) + [digit]
  }

  /** Distinct indices have distinct keys. */
  lemma {:induction false} IndexKeyInjective(i: nat, j: nat)
    requires IndexKey(i) == IndexKey(j)
    ensures i == j
  {
    var ki, kj := IndexKey(i), IndexKey(j);
    assert ki[|ki| - 1] == (48 + i % 10) as char;
    assert kj[|kj| - 1] == (48 + j % 10) as char;
    if i >= 10 {
      assert ki[..|ki| - 1] == IndexKey(i / 10);
      assert kj[..|kj| - 1] == IndexKey(j / 10);
      IndexKeyInjective(i / 10, j / 10);
    }
  }

  /** The one-character strings of `s`, in order: what iterating a string yields. */
  function Chars(s: string): (r: seq<Value>)
    ensures |r| == |s|
    ensures forall i :: 0 <= i < |s| ==> r[i] == Str([s[i]])
  {
    seq(|s|, i requires 0 <= i < |s| => Str([s[i]]))
  }

  /** The index-keyed own properties of an array or a string's characters. */
  function IndexedFields(items: seq<Value>): (m: map<string, Value>)
    ensures forall i :: 0 <= i < |items| ==> IndexKey(i) in m && m[IndexKey(i)] == items[i]
    ensures forall k :: k in m ==> exists i :: 0 <= i < |items| && k == IndexKey(i)
  {
    IndexKeysDistinct();
    map i | 0 <= i < |items| :: IndexKey(i) := items[i]
  }

  lemma IndexKeysDistinct()
    ensures forall i: nat, j: nat :: IndexKey(i) == IndexKey(j) ==> i == j
  {
    forall i: nat, j: nat | IndexKey(i) == IndexKey(j)
      ensures i == j
    {
      IndexKeyInjective(i, j);
    }
  }

  /** The properties `{ ...v }` copies: an object's own fields, the indices of
      an array or a string, and nothing for `null`, `undefined`, booleans and
      numbers. */
  function Spread(v: Value): (m: map<string, Value>)
    ensures v.Obj? ==> m == v.fields
    ensures v.Arr? ==> forall i :: 0 <= i < |v.items| ==> IndexKey(i) in m && m[IndexKey(i)] == v.items[i]
    ensures v.Str? ==> forall i :: 0 <= i < |v.s| ==> IndexKey(i) in m && m[IndexKey(i)] == Str([v.s[i]])
    ensures v.Arr? ==> forall k :: k in m ==> exists i :: 0 <= i < |v.items| && k == IndexKey(i)
    ensures v.Str? ==> forall k :: k in m ==> exists i :: 0 <= i < |v.s| && k == IndexKey(i)
    ensures !v.Obj? && !v.Arr? && !v.Str? ==> m == map[]
  {
    match v
    case Obj(fields) => fields
    case Arr(items) => IndexedFields(items)
    case Str(s) => IndexedFields(Chars(s))
    case _ => map[]
  }
}
