/** Values produced by `JSON.parse`, and the JavaScript operations the
    import code applies to them: truthiness, `typeof`, property reads,
    `String(v)` / `v.toString()`, `Array.isArray`, `join` and the object
    spread `{...v}`. */
module Json {
  import opened Base
  import opened Text

  /** A JSON number, written as the decimal fraction `units / 10^scale`. */
  datatype Dec = Dec(units: int, scale: nat)

  function Pow10(k: nat): (r: nat)
    ensures r >= 1
  {
    if k == 0 then 1 else 10 * Pow10(k - 1)
  }

  function DecValue(d: Dec): real {
    d.units as real / Pow10(d.scale) as real
  }

  function IntNum(n: int): JsValue {
    Num(Dec(n, 0))
  }

  datatype JsValue =
    | Undefined
    | Null
    | Bool(b: bool)
    | Num(n: Dec)
    | Str(s: string)
    | Arr(items: seq<JsValue>)
    | Obj(fields: map<string, JsValue>)

  /** The outcome of `JSON.parse`: a value, or the thrown `SyntaxError`. */
  datatype ParseOutcome = Parsed(value: JsValue) | SyntaxError

  /** JavaScript truthiness: `undefined`, `null`, `false`, `0` and `""` are
      falsy; every array and object is truthy. */
  predicate Truthy(v: JsValue) {
    match v
    case Undefined => false
    case Null => false
    case Bool(b) => b
    case Num(d) => d.units != 0
    case Str(s) => s != ""
    case Arr(_) => true
    case Obj(_) => true
  }

  predicate IsNullish(v: JsValue) {
    v.Undefined? || v.Null?
  }

  /** `typeof v`. */
  function TypeOf(v: JsValue): string {
    match v
    case Undefined => "undefined"
    case Bool(_) => "boolean"
    case Num(_) => "number"
    case Str(_) => "string"
    case _ => "object"
  }

  /** `Array.isArray(v)`. */
  predicate IsArray(v: JsValue) {
    v.Arr?
  }

  /** The property read `v.key` for the named (non-index) keys the modelled
      code reads: `None` is the `TypeError` thrown when `v` is `null` or
      `undefined`; a missing key, or any key of a primitive other than a
      string's or array's `length`, reads as `undefined`. */
  function Get(v: JsValue, key: string): (r: Option<JsValue>)
    ensures r.None? <==> IsNullish(v)
    ensures v.Obj? && key in v.fields ==> r == Some(v.fields[key])
    ensures v.Obj? && key !in v.fields ==> r == Some(Undefined)
  {
    match v
    case Undefined => None
    case Null => None
    case Obj(m) => Some(if key in m then m[key] else Undefined)
    case Arr(items) => Some(if key == "length" then IntNum(|items|) else Undefined)
    case Str(s) => Some(if key == "length" then IntNum(|s|) else Undefined)
    case _ => Some(Undefined)
  }

  /** The read `v?.key`: `undefined` instead of a `TypeError`. */
  function GetOpt(v: JsValue, key: string): JsValue {
    match Get(v, key)
    case None => Undefined
    case Some(x) => x
  }

  /** A decimal with trailing fraction zeros removed (`1.50` becomes `1.5`,
      `2.0` becomes `2`); the value is unchanged. */
  function Normalize(d: Dec): (r: Dec)
    ensures r.scale == 0 || r.units % 10 != 0
    ensures r.scale <= d.scale
    decreases d.scale
  {
    if d.scale > 0 && d.units % 10 == 0 then Normalize(Dec(d.units / 10, d.scale - 1)) else d
  }

  lemma {:induction false} NormalizeValue(d: Dec)
    ensures DecValue(Normalize(d)) == DecValue(d)
    decreases d.scale
  {
    if d.scale > 0 && d.units % 10 == 0 {
      var e := Dec(d.units / 10, d.scale - 1);
      NormalizeValue(e);
      assert d == Dec(e.units * 10, e.scale + 1);
      DecScale(e);
    }
  }

  /** A trailing zero digit does not change the value. */
  lemma DecScale(e: Dec)
    ensures DecValue(Dec(e.units * 10, e.scale + 1)) == DecValue(e)
  {
    var p := Pow10(e.scale);
    assert Pow10(e.scale + 1) == p * 10;
    RealScale(e.units as real, p as real);
  }

  lemma RealScale(x: real, p: real)
    requires p >= 1.0
    ensures (x * 10.0) / (p * 10.0) == x / p
  {
  }

  function Zeros(n: nat): (r: string)
    ensures |r| == n && AllDigits(r)
  {
    if n == 0 then "" else "0" + Zeros(n - 1)
  }

  /** `s` padded on the left with zeros to width `w`. */
  function PadLeft(s: string, w: nat): (r: string)
    ensures |r| == if |s| < w then w else |s|
  {
    if |s| < w then Zeros(w - |s|) + s else s
  }

  /** `String(x)` for a number in the range JavaScript prints without an
      exponent. */
  function NumText(d: Dec): string {
    var n := Normalize(d);
    if n.scale == 0 then IntText(n.units)
    else if n.units < 0 then "-" + FractionText(-n.units, n.scale)
    else FractionText(n.units, n.scale)
  }

  /** The digits of `a / 10^k` with `k` fraction digits. */
  function FractionText(a: nat, k: nat): string {
    NatText(Quotient(a, Pow10(k))) + "." + PadLeft(NatText(Remainder(a, Pow10(k))), k)
  }

  function Quotient(a: nat, p: nat): nat
    requires p >= 1
  {
    a / p
  }

  function Remainder(a: nat, p: nat): nat
    requires p >= 1
  {
    a % p
  }

  /** A number written with a fraction of zeros prints as the integer
      (`1.00` prints `1`). */
  lemma {:induction false} NumTextWhole(n: int, s: nat)
    ensures NumText(Dec(n * Pow10(s), s)) == IntText(n)
  {
    NormalizeWhole(n, s);
  }

  lemma {:induction false} NormalizeWhole(n: int, s: nat)
    ensures Normalize(Dec(n * Pow10(s), s)) == Dec(n, 0)
    decreases s
  {
    if s > 0 {
      var m := n * Pow10(s - 1);
      assert n * Pow10(s) == m * 10;
      assert (m * 10) % 10 == 0 && (m * 10) / 10 == m;
      NormalizeWhole(n, s - 1);
    }
  }

  /** The text an array element contributes to `join`: `null` and
      `undefined` contribute nothing. */
  function ElementText(v: JsValue): string
    decreases v, 1
  {
    if IsNullish(v) then "" else ToText(v)
  }

  /** `items.join(sep)` on a JSON array. */
  function JoinValues(items: seq<JsValue>, sep: string): (r: string)
    decreases items, 0
  {
    if |items| == 0 then ""
    else if |items| == 1 then ElementText(items[0])
    else ElementText(items[0]) + sep + JoinValues(items[1..], sep)
  }

  /** `String(v)`, which is also what a template literal `${v}` inserts. */
  function ToText(v: JsValue): string
    decreases v, 0
  {
    match v
    case Undefined => "undefined"
    case Null => "null"
    case Bool(b) => if b then "true" else "false"
    case Num(d) => NumText(d)
    case Str(s) => s
    case Arr(items) => JoinValues(items, ",")
    case Obj(_) => "[object Object]"
  }

  /** `JoinValues` is `Text.Join` over the element texts. */
  lemma {:induction false} JoinValuesIsJoin(items: seq<JsValue>, sep: string)
    ensures JoinValues(items, sep) == Join(seq(|items|, i requires 0 <= i < |items| => ElementText(items[i])), sep)
  {
    if |items| > 1 {
      JoinValuesIsJoin(items[1..], sep);
      var t := seq(|items|, i requires 0 <= i < |items| => ElementText(items[i]));
      assert t[1..] == seq(|items[1..]|, i requires 0 <= i < |items[1..]| => ElementText(items[1..][i]));
    }
  }

  /** `v.toString()`: `None` is the `TypeError` on `null` or `undefined`. */
  function CallToString(v: JsValue): (r: Option<string>)
    ensures r.None? <==> IsNullish(v)
    ensures r.Some? ==> r.value == ToText(v)
  {
    if IsNullish(v) then None else Some(ToText(v))
  }

  /** The own enumerable properties of an array or a string: index keys
      `"0"`, `"1"`, ... */
  function IndexFields(items: seq<JsValue>): (r: map<string, JsValue>)
    ensures forall i :: 0 <= i < |items| ==> NatText(i) in r && r[NatText(i)] == items[i]
    ensures forall k :: k in r ==> exists i :: 0 <= i < |items| && k == NatText(i)
  {
    if |items| == 0 then map[]
    else
      var n := |items| - 1;
      var r := IndexFields(items[..n])[NatText(n) := items[n]];
      assert forall i :: 0 <= i < n ==> items[..n][i] == items[i];
      forall i | 0 <= i < n
        ensures NatText(i) in r && r[NatText(i)] == items[i]
      {
        NatTextInjective(i, n);
      }
      r
  }

  /** Different numbers have different decimal texts. */
  lemma NatTextInjective(a: nat, b: nat)
    requires a != b
    ensures NatText(a) != NatText(b)
  {
    NatTextValue(a);
    NatTextValue(b);
  }

  /** The properties copied by the object spread `{...v}`: an object's own
      fields, an array's or a string's index keys, and nothing for any other
      value. */
  function Spread(v: JsValue): (r: map<string, JsValue>)
    ensures v.Obj? ==> r == v.fields
    ensures !(v.Obj? || v.Arr? || v.Str?) ==> r == map[]
  {
    match v
    case Obj(m) => m
    case Arr(items) => IndexFields(items)
    case Str(s) => IndexFields(seq(|s|, i requires 0 <= i < |s| => Str([s[i]])))
    case _ => map[]
  }
}
