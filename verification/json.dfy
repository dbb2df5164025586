/** Values of the JSON documents the bot reads (config.json, state.json and the
    venue's replies) and the Python conversions the bot applies to them:
    truthiness, `float(v)` and `int(v)`. A conversion that Python would refuse
    with ValueError or TypeError yields None. */
module Json {
  import opened Util

  datatype JsonValue =
    | JNull
    | JBool(b: bool)
    | JInt(i: int)
    | JReal(r: real)
    | JStr(s: string)
    | JList(items: seq<JsonValue>)
    | JObj(fields: map<string, JsonValue>)

  /** `dict.get(key, default)`. */
  function Get(m: map<string, JsonValue>, key: string, default: JsonValue): (v: JsonValue)
    ensures key in m ==> v == m[key]
    ensures key !in m ==> v == default
  {
    if key in m then m[key] else default
  }

  /** Python truthiness: None, False, zero, "" and empty containers are false. */
  predicate Truthy(v: JsonValue)
  {
    match v
    case JNull => false
    case JBool(b) => b
    case JInt(i) => i != 0
    case JReal(r) => r != 0.0
    case JStr(s) => s != ""
    case JList(items) => items != []
    case JObj(fields) => fields != map[]
  }

  /** The value as a Python number, if it is one (bool is a number in Python). */
  function AsNumber(v: JsonValue): Option<real>
  {
    match v
    case JBool(b) => Some(if b then 1.0 else 0.0)
    case JInt(i) => Some(i as real)
    case JReal(r) => Some(r)
    case _ => None
  }

  /** The dicts met by `for x in v: x.get(...)`: a list must hold only
      objects; an empty string or empty object iterates nothing; anything else
      makes the loop raise (None). */
  function DictItems(v: JsonValue): (r: Option<seq<map<string, JsonValue>>>)
    ensures v.JList? ==> (r.Some? <==> forall i :: 0 <= i < |v.items| ==> v.items[i].JObj?)
    ensures v.JList? && r.Some? ==>
              |r.value| == |v.items| && forall i :: 0 <= i < |v.items| ==> v.items[i] == JObj(r.value[i])
    ensures !v.JList? ==> (r.Some? <==> v == JStr("") || v == JObj(map[]))
    ensures !v.JList? && r.Some? ==> r.value == []
  {
    match v
    case JList(items) =>
      if forall i :: 0 <= i < |items| ==> items[i].JObj? then
        Some(seq(|items|, i requires 0 <= i < |items| => items[i].fields))
      else None
    case JStr(s) => if s == "" then Some([]) else None
    case JObj(f) => if f == map[] then Some([]) else None
    case _ => None
  }

  predicate IsDigit(c: char) { '0' <= c <= '9' }

  predicate AllDigits(s: string) { forall i :: 0 <= i < |s| ==> IsDigit(s[i]) }

  function DigitsValue(s: string): nat
    requires AllDigits(s)
  {
    if |s| == 0 then 0
    else DigitsValue(s[..|s| - 1]) * 10 + (s[|s| - 1] as int - '0' as int)
  }

  /** An optional leading sign, split off. */
  function SplitSign(s: string): (bool, string)
  {
    if |s| > 0 && (s[0] == '-' || s[0] == '+') then (s[0] == '-', s[1..]) else (false, s)
  }

  function IndexOf(s: string, c: char): (r: Option<nat>)
    ensures r.Some? ==> r.value < |s| && s[r.value] == c && c !in s[..r.value]
    ensures r.None? ==> c !in s
  {
    if |s| == 0 then None
    else if s[0] == c then Some(0)
    else match IndexOf(s[1..], c)
      case None => None
      case Some(k) => assert s[1..][..k] == s[1..k + 1]; Some(k + 1)
  }

  /** `int(s)` for a string of an optional sign and decimal digits. */
  function ParseInteger(s: string): Option<int>
  {
    var (neg, body) := SplitSign(s);
    if |body| > 0 && AllDigits(body) then
      Some(if neg then -(DigitsValue(body) as int) else DigitsValue(body) as int)
    else None
  }

  /** `float(s)` for a plain decimal string: optional sign, digits, optional
      fraction, at least one digit. */
  function ParseDecimal(s: string): Option<real>
  {
    var (neg, body) := SplitSign(s);
    match IndexOf(body, '.')
    case None =>
      if |body| > 0 && AllDigits(body) then
        Some(if neg then -(DigitsValue(body) as real) else DigitsValue(body) as real)
      else None
    case Some(k) =>
      var whole := body[..k];
      var frac := body[k + 1..];
      if |whole| + |frac| > 0 && AllDigits(whole) && AllDigits(frac) then
        var mag := DigitsValue(whole) as real + DigitsValue(frac) as real / Pow10(|frac|);
        Some(if neg then -mag else mag)
      else None
  }

  /** Python `float(v)`. */
  function ToFloat(v: JsonValue): Option<real>
  {
    match v
    case JStr(s) => ParseDecimal(s)
    case _ => AsNumber(v)
  }

  /** Python `int(v)`: floats truncate toward zero, strings must be integral. */
  function ToInt(v: JsonValue): Option<int>
  {
    match v
    case JBool(b) => Some(if b then 1 else 0)
    case JInt(i) => Some(i)
    case JReal(r) => Some(Trunc(r))
    case JStr(s) => ParseInteger(s)
    case _ => None
  }

  /** Decimal digits of a natural number, most significant first. */
  function ShowNat(n: nat): (s: string)
    ensures |s| > 0 && AllDigits(s)
  {
    var d := [(('0' as int) + n % 10) as char];
    if n < 10 then d else ShowNat(n / 10) + d
  }

  lemma {:induction false} ShowNatRoundTrip(n: nat)
    ensures DigitsValue(ShowNat(n)) == n
  {
    var s := ShowNat(n);
    assert s[..|s| - 1] == (if n < 10 then [] else ShowNat(n / 10));
    if n >= 10 {
      ShowNatRoundTrip(n / 10);
    }
  }

  /** `int(str(n))` gives back `n`: the textual form written by `str` is read
      back by the integer conversion. */
  lemma ParseIntegerOfShown(n: int)
    ensures ParseInteger(if n < 0 then "-" + ShowNat(-n) else ShowNat(n)) == Some(n)
  {
    var body := if n < 0 then ShowNat(-n) else ShowNat(n);
    ShowNatRoundTrip(if n < 0 then -n else n);
    if n < 0 {
      assert ("-" + body)[1..] == body;
    }
  }
}
