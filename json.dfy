/**
 * JSON values as PHP sees them after decoding a request or before encoding a
 * response. An object is an ORDERED list of key/value pairs, because a PHP
 * array keeps insertion order.
 */
module Json {
  import opened Wrappers

  datatype Json =
    | JNull
    | JBool(b: bool)
    | JInt(n: int)
    | JStr(s: string)
    | JArr(items: seq<Json>)
    | JObj(fields: seq<(string, Json)>)

  /** The value stored under `key`; when a key repeats, the last pair wins, as in `json_decode`. */
  function Get(fields: seq<(string, Json)>, key: string): (r: Option<Json>)
    ensures r.Some? <==> exists i :: 0 <= i < |fields| && fields[i].0 == key
    ensures r.Some? ==> exists i :: 0 <= i < |fields| && fields[i] == (key, r.value)
  {
    if |fields| == 0 then None
    else if fields[|fields| - 1].0 == key then Some(fields[|fields| - 1].1)
    else
      var r := Get(fields[..|fields| - 1], key);
      assert forall i :: 0 <= i < |fields| - 1 ==> fields[..|fields| - 1][i] == fields[i];
      r
  }

  /** The request input stored under `key`, when the body is an object that has it. */
  function Input(body: Json, key: string): Option<Json>
  {
    if body.JObj? then Get(body.fields, key) else None
  }

  /** The characters PHP's `trim` removes. */
  predicate IsTrimmed(c: char)
  {
    c == ' ' || c == '\t' || c == '\n' || c == '\r' || c == '\0' || c == '\U{B}'
  }

  /** A string that `trim` turns into the empty string. */
  predicate Blank(s: string)
  {
    forall i :: 0 <= i < |s| ==> IsTrimmed(s[i])
  }

  /**
   * Laravel's `required` rule on a present value: it fails on null, on a
   * string that is blank after trimming and on an empty array.
   */
  predicate Filled(v: Json)
  {
    match v
    case JNull => false
    case JStr(s) => !Blank(s)
    case JArr(items) => |items| > 0
    case JObj(fields) => |fields| > 0
    case _ => true
  }

  /** `required` on an input that may be missing. */
  predicate Present(v: Option<Json>)
  {
    v.Some? && Filled(v.value)
  }

  /** The decimal digits of `n`, as PHP prints an integer: no sign and no leading zero. */
  function Decimal(n: nat): (r: string)
    ensures IsDigits(r)
    ensures n > 0 ==> r[0] != '0'
  {
    var d := [(('0' as int) + n % 10) as char];
    if n < 10 then d else Decimal(n / 10) + d
  }

  /** A non-empty string of ASCII decimal digits. */
  predicate IsDigits(s: string)
  {
    |s| > 0 && forall i :: 0 <= i < |s| ==> '0' <= s[i] <= '9'
  }

  /** The value of a string of decimal digits, read as the database reads a numeric string. */
  function DigitsValue(s: string): nat
    requires forall i :: 0 <= i < |s| ==> '0' <= s[i] <= '9'
  {
    if s == [] then 0 else DigitsValue(s[..|s| - 1]) * 10 + (s[|s| - 1] as int - '0' as int)
  }

  /** Reading the digits PHP prints for `n` gives `n` back. */
  lemma {:induction false} DigitsRoundTrip(n: nat)
    ensures DigitsValue(Decimal(n)) == n
  {
    var s := Decimal(n);
    if n >= 10 {
      DigitsRoundTrip(n / 10);
      assert s[..|s| - 1] == Decimal(n / 10);
    }
  }

  /**
   * A non-negative whole number as the validator's `numeric` rule and the
   * database read it: an integer of at least 0, or a string of decimal
   * digits taken by its value.
   */
  function Natural(v: Json): (r: Option<nat>)
    ensures v.JInt? && v.n >= 0 ==> r == Some(v.n)
    ensures r.Some? ==> Filled(v)
    ensures r.Some? ==> (v.JInt? && v.n >= 0) || (v.JStr? && IsDigits(v.s))
  {
    match v
    case JInt(n) => if n >= 0 then Some(n) else None
    case JStr(s) =>
      if IsDigits(s) then
        assert !IsTrimmed(s[0]);
        Some(DigitsValue(s))
      else None
    case _ => None
  }

  /** The digits PHP prints for `n`, sent as a string, are read as `n`. */
  lemma NaturalOfDecimal(n: nat)
    ensures Natural(JStr(Decimal(n))) == Some(n)
  {
    DigitsRoundTrip(n);
  }

  /** The values of a PHP array in order: a list's items or an object's values. */
  function Values(v: Json): (r: seq<Json>)
    requires v.JArr? || v.JObj?
    ensures v.JArr? ==> r == v.items
    ensures v.JObj? ==> |r| == |v.fields| && forall i :: 0 <= i < |r| ==> r[i] == v.fields[i].1
  {
    if v.JArr? then v.items else seq(|v.fields|, i requires 0 <= i < |v.fields| => v.fields[i].1)
  }
}
