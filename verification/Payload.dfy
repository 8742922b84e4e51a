/**
 * The decoded body of a request, as the framework's validator sees it: JSON
 * decoded into PHP values. A JSON object and a JSON list both become PHP
 * arrays; objects keep their members in order.
 */
module Payload {
  import opened Wrappers

  datatype Json =
    | JNull
    | JBool(b: bool)
    | JInt(i: int)
    | JString(s: string)
    | JArray(items: seq<Json>)
    | JObject(members: seq<(string, Json)>)

  /** What the `array` validation rule accepts: a list or an object. */
  predicate IsArrayLike(v: Json) {
    v.JArray? || v.JObject?
  }

  predicate IsDigit(c: char) {
    '0' <= c <= '9'
  }

  function DigitChar(d: nat): (c: char)
    requires d < 10
    ensures IsDigit(c)
  {
    ('0' as int + d) as char
  }

  /** Decimal form of a natural number, as PHP prints it. */
  function NatToString(n: nat): (r: string)
    ensures |r| >= 1
    ensures forall i :: 0 <= i < |r| ==> IsDigit(r[i])
    decreases n
  {
    if n < 10 then [DigitChar(n)] else NatToString(n / 10) + [DigitChar(n % 10)]
  }

  /** Decimal form of an integer, as PHP's string cast prints it. */
  function IntToString(i: int): (r: string)
    ensures |r| >= 1 && (IsDigit(r[0]) || r[0] == '-')
  {
    if i < 0 then "-" + NatToString(-i) else NatToString(i)
  }

  function DigitsValue(s: string): nat
    requires forall i :: 0 <= i < |s| ==> IsDigit(s[i])
  {
    if s == [] then 0
    else
      var last := s[|s| - 1];
      assert IsDigit(last);
      DigitsValue(s[..|s| - 1]) * 10 + (last as int - '0' as int)
  }

  /**
   * The list index an array key denotes: PHP turns a key made of decimal
   * digits without a leading zero into an integer key.
   */
  function ParseIndex(k: string): (r: Option<nat>)
    ensures r.Some? ==> |k| > 0 && (forall i :: 0 <= i < |k| ==> IsDigit(k[i])) && r.value == DigitsValue(k)
    ensures r.Some? ==> |k| == 1 || k[0] != '0'
  {
    if |k| == 0 || (|k| > 1 && k[0] == '0') then None
    else if forall i :: 0 <= i < |k| ==> IsDigit(k[i]) then Some(DigitsValue(k))
    else None
  }

  /** The value of the first member named `k`. */
  function Lookup(members: seq<(string, Json)>, k: string): (r: Option<Json>)
    ensures r.None? <==> forall i :: 0 <= i < |members| ==> members[i].0 != k
    ensures r.Some? ==> exists i :: 0 <= i < |members| && members[i] == (k, r.value)
  {
    if members == [] then None
    else if members[0].0 == k then Some(members[0].1)
    else Lookup(members[1..], k)
  }

  /** A number prints with a leading zero only when it is zero itself. */
  lemma {:induction false} NoLeadingZero(n: nat)
    ensures NatToString(n)[0] == '0' <==> n == 0
    decreases n
  {
    if n >= 10 {
      NoLeadingZero(n / 10);
      assert NatToString(n)[0] == NatToString(n / 10)[0];
    }
  }

  /** The digits a number prints as have that number as their value. */
  lemma {:induction false} DigitsOfNat(n: nat)
    ensures DigitsValue(NatToString(n)) == n
    decreases n
  {
    var s := NatToString(n);
    if n < 10 {
      assert s[..|s| - 1] == [];
    } else {
      assert s[..|s| - 1] == NatToString(n / 10);
      DigitsOfNat(n / 10);
    }
  }

  /** The key a list position prints as parses back to that position. */
  lemma IndexRoundTrip(n: nat)
    ensures ParseIndex(NatToString(n)) == Some(n)
  {
    DigitsOfNat(n);
    NoLeadingZero(n);
  }

  /** Entry `i` of a list is found under the key the position prints as. */
  lemma ChildOfList(items: seq<Json>, i: nat)
    requires i < |items|
    ensures Child(JArray(items), NatToString(i)) == Some(items[i])
  {
    IndexRoundTrip(i);
  }

  /** The entry under key `k` of an array value; scalars have no entries. */
  function Child(v: Json, k: string): Option<Json> {
    match v
    case JObject(members) => Lookup(members, k)
    case JArray(items) =>
      (match ParseIndex(k)
       case Some(n) => if n < |items| then Some(items[n]) else None
       case None => None)
    case _ => None
  }

  /** The value at a dotted path (`data.attributes.title` is ["data", "attributes", "title"]). */
  function Get(v: Json, keys: seq<string>): Option<Json>
    decreases |keys|
  {
    if keys == [] then Some(v)
    else match Child(v, keys[0])
      case None => None
      case Some(c) => Get(c, keys[1..])
  }

  /** Following one more key after a path is looking that key up in the value found there. */
  lemma {:induction false} GetAppend(v: Json, keys: seq<string>, k: string)
    ensures Get(v, keys + [k]) == if Get(v, keys).Some? then Child(Get(v, keys).value, k) else None
    decreases |keys|
  {
    if keys == [] {
      assert [k][1..] == [];
    } else {
      assert (keys + [k])[0] == keys[0];
      assert (keys + [k])[1..] == keys[1..] + [k];
      match Child(v, keys[0])
      case None =>
      case Some(c) => GetAppend(c, keys[1..], k);
    }
  }

  /** The request's `has`: the path exists, even when its value is null. */
  predicate Has(v: Json, keys: seq<string>) {
    Get(v, keys).Some?
  }

  /** Key and value of every entry of an array value, in order. */
  function Children(v: Json): (kids: seq<(string, Json)>)
    ensures v.JObject? ==> kids == v.members
    ensures v.JArray? ==> |kids| == |v.items| && forall i :: 0 <= i < |kids| ==> kids[i] == (NatToString(i), v.items[i])
    ensures !IsArrayLike(v) ==> kids == []
  {
    match v
    case JObject(members) => members
    case JArray(items) => seq(|items|, i requires 0 <= i < |items| => (NatToString(i), items[i]))
    case _ => []
  }
}
