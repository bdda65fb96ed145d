/**
 * The JSON value a rich-message payload decodes to, and key lookup on it.
 * The text parser itself is not modelled: its outcome arrives as an
 * Option<Json>, and a failed parse reads as `null` (serde_json's
 * `unwrap_or_default`).
 */
module Payload {
  import opened Base

  /**
   * A JSON value. Numbers are kept only as far as the code can tell them
   * apart: a non-negative integer that fits in 64 bits (JUInt), or any other
   * number (negative, fractional or too large: JOtherNum).
   */
  datatype Json =
    | JNull
    | JBool(b: bool)
    | JUInt(n: U64)
    | JOtherNum
    | JStr(s: string)
    | JArr(items: seq<Json>)
    | JObj(members: seq<(string, Json)>)

  /** The value the payload text stands for: the parsed value, or `null` when it did not parse. */
  function PayloadValue(parsed: Option<Json>): (v: Json)
    ensures parsed.None? ==> v == JNull
    ensures parsed.Some? ==> v == parsed.value
  {
    match parsed
    case Some(j) => j
    case None => JNull
  }

  /**
   * x is what key is bound to in ms: some member (key, x) has no later
   * member with the same key. A JSON object that repeats a key keeps the
   * last value written for it.
   */
  ghost predicate LastBinding(ms: seq<(string, Json)>, key: string, x: Json)
  {
    exists i :: 0 <= i < |ms| && ms[i] == (key, x) &&
      forall j :: i < j < |ms| ==> ms[j].0 != key
  }

  /** v is an object and x is the value its key is bound to. */
  ghost predicate Binds(v: Json, key: string, x: Json)
  {
    v.JObj? && LastBinding(v.members, key, x)
  }

  /** The value of the last member named key, if any. */
  function Lookup(ms: seq<(string, Json)>, key: string): (r: Option<Json>)
    ensures forall x :: r == Some(x) <==> LastBinding(ms, key, x)
    ensures r.None? <==> forall i :: 0 <= i < |ms| ==> ms[i].0 != key
    decreases |ms|
  {
    if ms == [] then None
    else if ms[|ms| - 1].0 == key then
      LastMemberBinds(ms, key);
      Some(ms[|ms| - 1].1)
    else
      var r := Lookup(ms[..|ms| - 1], key);
      LastBindingSkipsLast(ms, key);
      r
  }

  /** When the last member has the key, it alone gives the binding. */
  lemma LastMemberBinds(ms: seq<(string, Json)>, key: string)
    requires |ms| > 0 && ms[|ms| - 1].0 == key
    ensures forall x :: LastBinding(ms, key, x) <==> x == ms[|ms| - 1].1
  {
    var n := |ms| - 1;
    assert LastBinding(ms, key, ms[n].1) by {
      assert ms[n] == (key, ms[n].1);
    }
  }

  /** When the last member has another key, the bindings are those of the rest. */
  lemma LastBindingSkipsLast(ms: seq<(string, Json)>, key: string)
    requires |ms| > 0 && ms[|ms| - 1].0 != key
    ensures forall x :: LastBinding(ms, key, x) <==> LastBinding(ms[..|ms| - 1], key, x)
  {
    var p := ms[..|ms| - 1];
    forall x ensures LastBinding(ms, key, x) <==> LastBinding(p, key, x) {
      if LastBinding(ms, key, x) {
        var i :| 0 <= i < |ms| && ms[i] == (key, x) &&
          forall j :: i < j < |ms| ==> ms[j].0 != key;
        assert p[i] == ms[i];
      }
      if LastBinding(p, key, x) {
        var i :| 0 <= i < |p| && p[i] == (key, x) &&
          forall j :: i < j < |p| ==> p[j].0 != key;
        assert ms[i] == p[i];
      }
    }
  }

  /**
   * serde_json's `Value::get(key)`: the value bound to key when v is an
   * object, nothing for any other kind of value.
   */
  function Get(v: Json, key: string): (r: Option<Json>)
    ensures forall x :: r == Some(x) <==> Binds(v, key, x)
    ensures r.None? <==> !v.JObj? || forall i :: 0 <= i < |v.members| ==> v.members[i].0 != key
  {
    match v
    case JObj(ms) => Lookup(ms, key)
    case _ => None
  }
}
