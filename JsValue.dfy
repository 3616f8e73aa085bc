/**
 * The JavaScript values the application receives from the AI service and
 * keeps in its partial-profile forms: `JSON.parse` results, and plain objects
 * merged with the spread operator.
 */
module JsValue {

  /** The result of a step that may throw. */
  datatype Outcome<T> = Success(value: T) | Failure

  /**
   * A JavaScript value. Numbers are reals (NaN is not modelled); an object
   * is its own enumerable properties.
   */
  datatype Value =
    | Undefined
    | Null
    | Bool(b: bool)
    | Num(n: real)
    | Str(s: string)
    | Arr(items: seq<Value>)
    | Obj(fields: map<string, Value>)

  /** A plain object, as its own properties. */
  type Object = map<string, Value>

  /** JavaScript truthiness: `undefined`, `null`, `false`, `0` and `""` are falsy. */
  predicate Truthy(v: Value) {
    match v
    case Undefined => false
    case Null => false
    case Bool(b) => b
    case Num(n) => n != 0.0
    case Str(s) => s != ""
    case _ => true
  }

  /** `o[k]` on a plain object: a missing property reads as `undefined`. */
  function Get(o: Object, k: string): Value {
    if k in o then o[k] else Undefined
  }

  /**
   * `v.k` on any value: `null` and `undefined` throw a TypeError; primitives
   * and arrays have none of the profile's property names.
   */
  function Property(v: Value, k: string): (r: Outcome<Value>)
    ensures r.Failure? <==> v.Undefined? || v.Null?
    ensures v.Obj? ==> r == Success(Get(v.fields, k))
    ensures !v.Obj? && r.Success? ==> r.value == Undefined
  {
    match v
    case Undefined => Failure
    case Null => Failure
    case Obj(m) => Success(Get(m, k))
    case _ => Success(Undefined)
  }

  /** `{...a, ...b}`: the properties of `b` win over those of `a`. */
  function Spread(a: Object, b: Object): (r: Object)
    ensures r.Keys == a.Keys + b.Keys
    ensures forall k :: k in b ==> r[k] == b[k]
    ensures forall k :: k in a && k !in b ==> r[k] == a[k]
  {
    a + b
  }

  /** `String(n)` for an array index: its decimal digits. */
  function IndexKey(n: nat): (r: string)
    ensures r != []
    ensures forall k :: 0 <= k < |r| ==> '0' <= r[k] <= '9'
  {
    if n < 10 then [('0' as int + n) as char]
    else IndexKey(n / 10) + [('0' as int + n % 10) as char]
  }

  /** The number a string of decimal digits spells. */
  function DecimalValue(s: string): nat {
    if s == [] then 0
    else
      var d := s[|s| - 1] as int - '0' as int;
      DecimalValue(s[..|s| - 1]) * 10 + (if 0 <= d < 10 then d else 0)
  }

  /** Reading an index key back gives the index. */
  lemma {:induction false} IndexKeyValue(n: nat)
    ensures DecimalValue(IndexKey(n)) == n
  {
    if n >= 10 {
      IndexKeyValue(n / 10);
      var s := IndexKey(n);
      assert s[..|s| - 1] == IndexKey(n / 10);
    }
  }

  /** Distinct indices have distinct keys. */
  lemma IndexKeyInjective()
    ensures forall a: nat, b: nat :: IndexKey(a) == IndexKey(b) ==> a == b
  {
    forall a: nat, b: nat | IndexKey(a) == IndexKey(b) ensures a == b {
      IndexKeyValue(a);
      IndexKeyValue(b);
    }
  }

  /** The own enumerable properties of an array-like value: element `i`
      under the key `String(i)`. */
  function Entries(items: seq<Value>): Object {
    if items == [] then map[]
    else Entries(items[..|items| - 1])[IndexKey(|items| - 1) := items[|items| - 1]]
  }

  /** The keys of `Entries(items)` are the index keys below `|items|`, each
      holding its element. */
  lemma {:induction false} EntriesAt(items: seq<Value>)
    ensures forall k :: k in Entries(items) <==> k == IndexKey(DecimalValue(k)) && DecimalValue(k) < |items|
    ensures forall i :: 0 <= i < |items| ==> IndexKey(i) in Entries(items) && Entries(items)[IndexKey(i)] == items[i]
  {
    if items != [] {
      var n := |items| - 1;
      var prev := items[..n];
      EntriesAt(prev);
      IndexKeyValue(n);
      IndexKeyInjective();
      forall i | 0 <= i < n ensures prev[i] == items[i] {
      }
    }
  }

  /** The characters of a string, one string per element. */
  function Chars(s: string): (r: seq<Value>)
    ensures |r| == |s|
    ensures forall k :: 0 <= k < |s| ==> r[k] == Str([s[k]])
  {
    if s == [] then [] else [Str([s[0]])] + Chars(s[1..])
  }

  /**
   * The properties `{...v}` and `Object.entries(v)` copy: an object's own
   * properties, an array's elements and a string's characters under their
   * index keys, and nothing from `undefined`, `null`, a boolean or a number.
   */
  function OwnFields(v: Value): Object {
    match v
    case Obj(m) => m
    case Arr(items) => Entries(items)
    case Str(s) => Entries(Chars(s))
    case _ => map[]
  }

  /** The fields of an array are exactly its elements, each under the key
      of its index. */
  lemma ArrayFields(items: seq<Value>)
    ensures forall k :: k in OwnFields(Arr(items)) <==> k == IndexKey(DecimalValue(k)) && DecimalValue(k) < |items|
    ensures forall i :: 0 <= i < |items| ==> IndexKey(i) in OwnFields(Arr(items)) && OwnFields(Arr(items))[IndexKey(i)] == items[i]
  {
    EntriesAt(items);
  }

  /** The text a string array element contributes to `join`. */
  function StrText(v: Value): string {
    if v.Str? then v.s else ""
  }

  /** `a || b` on values. */
  function OrElse(a: Value, b: Value): Value {
    if Truthy(a) then a else b
  }

  /** A string array. */
  function StrArray(xs: seq<string>): (r: Value)
    ensures r.Arr? && |r.items| == |xs|
    ensures forall k :: 0 <= k < |xs| ==> r.items[k] == Str(xs[k])
  {
    if xs == [] then Arr([]) else Arr([Str(xs[0])] + StrArray(xs[1..]).items)
  }

  /** The texts of an array's elements, as `join` reads string elements. */
  function Texts(items: seq<Value>): (r: seq<string>)
    ensures |r| == |items|
    ensures forall k :: 0 <= k < |items| ==> r[k] == StrText(items[k])
  {
    if items == [] then [] else [StrText(items[0])] + Texts(items[1..])
  }
}
