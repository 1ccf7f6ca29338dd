/** JSON values as the Jansson library presents them to jrpc, and the C integer types involved.

A string of this model has no embedded NUL: jrpc loads texts without the flag that would allow one,
so a C string and the corresponding `string` are the same characters. */
module Jansson {

  datatype Option<+T> = None | Some(value: T) {
    function GetOr(default: T): T {
      if Some? then value else default
    }
  }

  type int64 = x: int | -0x8000_0000_0000_0000 <= x < 0x8000_0000_0000_0000
  type int32 = x: int | -0x8000_0000 <= x < 0x8000_0000

  datatype Json =
    | Null
    | Bool(b: bool)
    | Integer(i: int64)
    | Real(r: real)
    | String(s: string)
    | Array(items: seq<Json>)
    | Object(fields: map<string, Json>)

  /** A lookup in something that is not an object finds nothing. */
  function ObjectGet(value: Json, key: string): Option<Json> {
    if value.Object? && key in value.fields then Some(value.fields[key]) else None
  }

  /** Setting a missing value leaves the object as it is. */
  function ObjectSet(fields: map<string, Json>, key: string, value: Option<Json>): map<string, Json> {
    match value
    case Some(v) => fields[key := v]
    case None => fields
  }

  /** A lookup in something that is not an array, or past its end, finds nothing. */
  function ArrayGet(value: Json, index: nat): Option<Json> {
    if value.Array? && index < |value.items| then Some(value.items[index]) else None
  }

  /** The conversion of a 64-bit integer to a 32-bit `int`: keep the low 32 bits, as two's complement. */
  function Narrow(x: int64): int32 {
    (x + 0x8000_0000) % 0x1_0000_0000 - 0x8000_0000
  }

  lemma MultipleMod(q: int)
    ensures (q * 0x1_0000_0000) % 0x1_0000_0000 == 0
  {
  }

  lemma NarrowDiffers(x: int64) returns (q: int)
    ensures x - Narrow(x) == q * 0x1_0000_0000
  {
    q := (x + 0x8000_0000) / 0x1_0000_0000;
  }

  /** Narrowing yields the one 32-bit integer that is congruent to the original modulo 2^32. */
  lemma NarrowIsCongruent(x: int64, y: int32)
    ensures Narrow(x) == y <==> (x - y) % 0x1_0000_0000 == 0
  {
    var q := NarrowDiffers(x);
    if Narrow(x) == y {
      MultipleMod(q);
    } else if (x - y) % 0x1_0000_0000 == 0 {
      var p := (x - y) / 0x1_0000_0000;
      NoSmallMultiple(p - q, Narrow(x) - y);
    }
  }

  lemma NoSmallMultiple(n: int, d: int)
    requires d == n * 0x1_0000_0000 && -0x1_0000_0000 < d < 0x1_0000_0000
    ensures d == 0
  {
  }
}
