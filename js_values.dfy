/**
 * Loosely typed JavaScript values as they arrive in request bodies, upstream
 * responses and thrown errors, with the handful of language operations the
 * application applies to them: truthiness, `typeof x === 'object'`, optional
 * property access, `String(x)`, `||` chains and `Array.prototype.find`.
 */
module JsValues {
  import opened Wrappers
  import Text

  /** A JSON-shaped JavaScript value. Numbers are integral. */
  datatype JsValue =
    | Undefined
    | Null
    | Bool(b: bool)
    | Num(n: int)
    | Str(s: string)
    | Arr(elems: seq<JsValue>)
    | Obj(fields: map<string, JsValue>)

  /** What `if (v)` and `!v` test. */
  predicate Truthy(v: JsValue) {
    match v
    case Undefined => false
    case Null => false
    case Bool(b) => b
    case Num(n) => n != 0
    case Str(s) => s != ""
    case Arr(_) => true
    case Obj(_) => true
  }

  /** `v === null || v === undefined`, what `??` and `?.` test. */
  predicate IsNullish(v: JsValue) {
    v.Null? || v.Undefined?
  }

  /** `typeof v === 'object'` (true of null and of arrays too). */
  predicate IsObject(v: JsValue) {
    v.Null? || v.Arr? || v.Obj?
  }

  /**
   * `v?.[key]` for a key that no prototype supplies: the own property of a plain
   * object, and `undefined` for every other value.
   */
  function Prop(v: JsValue, key: string): JsValue {
    if v.Obj? && key in v.fields then v.fields[key] else Undefined
  }

  /** `vs[0] || vs[1] || ... || last`: the first truthy operand, else the last one. */
  function Or(vs: seq<JsValue>, last: JsValue): (r: JsValue)
    ensures forall k :: 0 <= k < |vs| && Truthy(vs[k]) && (forall j :: 0 <= j < k ==> !Truthy(vs[j])) ==> r == vs[k]
    ensures (forall k :: 0 <= k < |vs| ==> !Truthy(vs[k])) ==> r == last
    ensures Truthy(last) ==> Truthy(r)
  {
    if vs == [] then last
    else if Truthy(vs[0]) then vs[0]
    else Or(vs[1..], last)
  }

  /** `Error(message)` as far as the application reads it: an object with a `message`. */
  function ErrorObject(message: string): (r: JsValue)
    ensures Prop(r, "message") == Str(message) && Prop(r, "response") == Undefined
  {
    Obj(map["message" := Str(message)])
  }

  /** The number a text of decimal digits spells, read from the left. */
  function DecimalValue(s: string): nat
    requires forall k :: 0 <= k < |s| ==> '0' <= s[k] <= '9'
  {
    if s == [] then 0 else DecimalValue(s[..|s| - 1]) * 10 + (s[|s| - 1] - '0') as nat
  }

  /** Decimal digits without a leading zero, the form in which JavaScript writes an integer. */
  predicate IsDecimalText(s: string) {
    && |s| >= 1
    && (forall k :: 0 <= k < |s| ==> '0' <= s[k] <= '9')
    && (|s| > 1 ==> s[0] != '0')
  }

  /** Decimal text of two or more digits spells at least 10. */
  lemma {:induction false} DecimalValueAtLeastTen(s: string)
    requires IsDecimalText(s) && |s| > 1
    ensures DecimalValue(s) >= 10
  {
    var p := s[..|s| - 1];
    assert p[0] == s[0];
    if |p| > 1 {
      DecimalValueAtLeastTen(p);
    }
  }

  /** Decimal text is determined by the number it spells: each number has one decimal text. */
  lemma {:induction false} DecimalTextUnique(s: string, t: string)
    requires IsDecimalText(s) && IsDecimalText(t)
    requires DecimalValue(s) == DecimalValue(t)
    ensures s == t
  {
    if |s| > 1 {
      DecimalValueAtLeastTen(s);
    }
    if |t| > 1 {
      DecimalValueAtLeastTen(t);
    }
    var ps, pt := s[..|s| - 1], t[..|t| - 1];
    assert s[|s| - 1] == t[|t| - 1];
    if |s| > 1 {
      assert ps[0] == s[0] && pt[0] == t[0];
      DecimalTextUnique(ps, pt);
      assert s == ps + [s[|s| - 1]] && t == pt + [t[|t| - 1]];
    }
  }

  /** The decimal digits of `n`, without leading zeros. */
  function Digits(n: nat): (r: string)
    ensures |r| >= 1
    ensures forall k :: 0 <= k < |r| ==> '0' <= r[k] <= '9'
    ensures n >= 10 ==> r[0] != '0'
    ensures IsDecimalText(r) && DecimalValue(r) == n
  {
    var d := ['0' + (n % 10) as char];
    if n < 10 then d
    else
      var r := Digits(n / 10) + d;
      assert r[..|r| - 1] == Digits(n / 10);
      r
  }

  /**
   * `String(v)`, as a template literal or `innerHTML` converts a value: arrays
   * are joined with `,` (null and undefined elements as empty text), plain
   * objects give `[object Object]`.
   */
  function JsToString(v: JsValue): (r: string)
    ensures v.Str? ==> r == v.s
    ensures v.Num? ==> r != [] && (r[0] == '-' <==> v.n < 0)
    ensures v.Num? && v.n >= 0 ==> forall k :: 0 <= k < |r| ==> '0' <= r[k] <= '9'
    ensures v.Num? ==> var digits := if v.n < 0 then r[1..] else r;
      IsDecimalText(digits) && DecimalValue(digits) == (if v.n < 0 then -v.n else v.n)
    decreases v
  {
    match v
    case Undefined => "undefined"
    case Null => "null"
    case Bool(b) => if b then "true" else "false"
    case Num(n) => if n < 0 then "-" + Digits(-n) else Digits(n)
    case Str(s) => s
    case Arr(elems) =>
      Text.Join(seq(|elems|, k requires 0 <= k < |elems| =>
        if IsNullish(elems[k]) then "" else JsToString(elems[k])), ",")
    case Obj(_) => "[object Object]"
  }

  /** `String(n)` of an integer is its decimal text, with `-` in front exactly when it is negative. */
  lemma NumberText(n: int, digits: string)
    requires IsDecimalText(digits) && DecimalValue(digits) == (if n < 0 then -n else n)
    ensures JsToString(Num(n)) == (if n < 0 then "-" + digits else digits)
  {
    var r := JsToString(Num(n));
    DecimalTextUnique(if n < 0 then r[1..] else r, digits);
    if n < 0 {
      assert r == [r[0]] + r[1..];
    }
  }

  /** `elems.findIndex(p)` from `from` on, as `None` when no element satisfies `p`. */
  function FindIndex(elems: seq<JsValue>, p: JsValue -> bool, from: nat): (r: Option<nat>)
    requires from <= |elems|
    ensures r.Some? ==> from <= r.value < |elems| && p(elems[r.value])
    ensures r.Some? ==> forall j :: from <= j < r.value ==> !p(elems[j])
    ensures r.None? ==> forall j :: from <= j < |elems| ==> !p(elems[j])
    decreases |elems| - from
  {
    if from == |elems| then None
    else if p(elems[from]) then Some(from)
    else FindIndex(elems, p, from + 1)
  }

  /** `elems.find(p)`: the first element satisfying `p`, else `undefined`. */
  function Find(elems: seq<JsValue>, p: JsValue -> bool): (r: JsValue)
    ensures forall k :: 0 <= k < |elems| && p(elems[k]) && (forall j :: 0 <= j < k ==> !p(elems[j])) ==> r == elems[k]
    ensures (forall k :: 0 <= k < |elems| ==> !p(elems[k])) ==> r == Undefined
  {
    match FindIndex(elems, p, 0)
    case Some(i) => elems[i]
    case None => Undefined
  }
}
