/** The JavaScript values the connector inspects after `JSON.parse` or a YAML
    load, and the handful of language rules its decisions rest on: truthiness,
    `Number.isFinite`, strict equality, `Array.prototype.includes`, property
    reads that throw on `null`/`undefined`, and string conversion in `+`. */
module JsValues {
  import opened Wrappers
  import Decimal

  /** A number as JSON.parse produces it. Integral finite values only; an
      out-of-range literal such as `1e999` parses to an infinity. JSON text
      cannot produce NaN. */
  datatype Num = Finite(value: int) | Infinite(negative: bool)

  datatype Value =
    | Undefined
    | Null
    | Bool(b: bool)
    | Number(n: Num)
    | Str(s: string)
    | Array(items: seq<Value>)
    | Object(members: seq<(string, Value)>)

  /** Values that `if (v)` treats as true. */
  predicate Truthy(v: Value) {
    match v
    case Undefined => false
    case Null => false
    case Bool(b) => b
    case Number(n) => !(n.Finite? && n.value == 0)
    case Str(s) => s != ""
    case Array(_) => true
    case Object(_) => true
  }

  /** A `string | undefined` that `if (s)` treats as true: present and not
      empty. */
  predicate TruthyText(s: Option<string>) {
    s.Some? && Truthy(Str(s.value))
  }

  /** `Number.isFinite(v)`: no coercion, so strings and booleans are rejected. */
  predicate IsFiniteNumber(v: Value) {
    v.Number? && v.n.Finite?
  }

  predicate IsNullish(v: Value) {
    v.Undefined? || v.Null?
  }

  /** Arrays and objects are compared by reference identity; two of them that
      come from different parses are never the same reference. */
  predicate IsPrimitive(v: Value) {
    !v.Array? && !v.Object?
  }

  /** The SameValueZero comparison `includes` uses. `Finite(0)` stands for both
      zeros, which SameValueZero identifies. */
  predicate SameValueZero(a: Value, b: Value) {
    IsPrimitive(a) && a == b
  }

  /** `list.includes(x)`. */
  predicate Includes(list: seq<Value>, x: Value) {
    exists i :: 0 <= i < |list| && SameValueZero(list[i], x)
  }

  /** Member lookup in an object's key/value list. When a key occurs twice the
      later occurrence wins, as it does for JSON.parse. */
  function Lookup<T>(members: seq<(string, T)>, key: string): Option<T> {
    if |members| == 0 then None
    else if members[|members| - 1].0 == key then Some(members[|members| - 1].1)
    else Lookup(members[..|members| - 1], key)
  }

  /** Lookup finds a value exactly when the key occurs, and the value it finds
      belongs to that key. */
  lemma {:induction false} LookupFinds<T>(members: seq<(string, T)>, key: string)
    ensures Lookup(members, key).None? <==> forall i :: 0 <= i < |members| ==> members[i].0 != key
    ensures Lookup(members, key).Some? ==>
      exists i :: 0 <= i < |members| && members[i] == (key, Lookup(members, key).value)
  {
    if |members| > 0 && members[|members| - 1].0 != key {
      var init := members[..|members| - 1];
      LookupFinds(init, key);
      assert forall i :: 0 <= i < |init| ==> init[i] == members[i];
    }
  }

  lemma LookupSnoc<T>(members: seq<(string, T)>, k: string, v: T, key: string)
    ensures Lookup(members + [(k, v)], key) == if k == key then Some(v) else Lookup(members, key)
  {
  }

  /** The property read `base.key`; None when it throws a TypeError because
      `base` is `null` or `undefined`. The keys the connector reads (`id`,
      `method`, `result`, `name`, `container`, `components`) are not built-in
      properties of primitives, arrays or plain objects, so on anything that is
      not an object they read `undefined`. */
  function Prop(base: Value, key: string): (r: Option<Value>)
    ensures r.None? <==> IsNullish(base)
    ensures r.Some? && r.value != Undefined ==>
      base.Object? && exists i :: 0 <= i < |base.members| && base.members[i] == (key, r.value)
  {
    match base
    case Undefined => None
    case Null => None
    case Object(ms) => LookupFinds(ms, key); Some(Lookup(ms, key).GetOr(Undefined))
    case _ => Some(Undefined)
  }

  /** String conversion applied by `+` when one operand is a string. Integers
      are rendered in plain decimal. */
  function ToText(v: Value): string {
    match v
    case Undefined => "undefined"
    case Null => "null"
    case Bool(b) => if b then "true" else "false"
    case Number(Finite(i)) => Decimal.IntText(i)
    case Number(Infinite(negative)) => if negative then "-Infinity" else "Infinity"
    case Str(s) => s
    case Array(items) =>
      JoinComma(seq(|items|, i requires 0 <= i < |items| =>
        if IsNullish(items[i]) then "" else ToText(items[i])))
    case Object(_) => "[object Object]"
  }

  /** `Array.prototype.join` with the default separator. */
  function JoinComma(parts: seq<string>): string {
    if |parts| == 0 then ""
    else if |parts| == 1 then parts[0]
    else JoinComma(parts[..|parts| - 1]) + "," + parts[|parts| - 1]
  }

  /** A `string | undefined` operand of `+`. */
  function OptText(s: Option<string>): string {
    match s
    case Some(t) => t
    case None => ToText(Undefined)
  }
}
