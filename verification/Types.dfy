/** Machine types shared by every module of the model. */
module Types {

  datatype Option<+T> = None | Some(value: T)

  /** `uint8_t`. */
  type Byte = b: int | 0 <= b < 256

  /** An HLMAC address as a value: the ids from the root downwards. */
  type Addr = seq<Byte>

  /** Stands for a link-layer (MAC) address; see Wire for the bytes. */
  type LinkId = nat

  /** Conversion of an `int` to `short`: wraps into [-32768, 32767]. */
  function ToInt16(x: int): (r: int)
    ensures -32768 <= r <= 32767
    decreases if x > 32767 then x else if x < -32768 then -x else 0
  {
    if x > 32767 then ToInt16(x - 65536)
    else if x < -32768 then ToInt16(x + 65536)
    else x
  }

  /** The result is congruent to the argument modulo 2^16 ... */
  lemma {:induction false} ToInt16Mod(x: int)
    ensures (ToInt16(x) - x) % 65536 == 0
    decreases if x > 32767 then x else if x < -32768 then -x else 0
  {
    if x > 32767 {
      ToInt16Mod(x - 65536);
      MultipleShift(ToInt16(x) - x, 1);
    } else if x < -32768 {
      ToInt16Mod(x + 65536);
      MultipleShift(ToInt16(x) - x, -1);
    }
  }

  /** ... by a whole number of wraps ... */
  lemma ToInt16Wraps(x: int) returns (k: int)
    ensures ToInt16(x) == x + 65536 * k
  {
    ToInt16Mod(x);
    k := (ToInt16(x) - x) / 65536;
  }

  /** ... so two `int`s have the same `short` exactly when they differ by a multiple of 2^16. */
  lemma ToInt16Congruent(x: int, y: int)
    ensures ToInt16(x) == ToInt16(y) <==> (x - y) % 65536 == 0
  {
    var k := ToInt16Wraps(x);
    var l := ToInt16Wraps(y);
    if ToInt16(x) == ToInt16(y) {
      MultipleShift(0, l - k);
      assert x - y == 0 + 65536 * (l - k);
    }
    if (x - y) % 65536 == 0 {
      var m := (x - y) / 65536;
      assert ToInt16(x) - ToInt16(y) == 65536 * (m + k - l);
    }
  }

  lemma MultipleShift(d: int, k: int)
    ensures (d + 65536 * k) % 65536 == d % 65536
  {
  }

  /** Congruence modulo 2^16 is kept by addition. */
  lemma ToInt16Add(x: int, y: int, x': int, y': int)
    requires ToInt16(x) == ToInt16(x') && ToInt16(y) == ToInt16(y')
    ensures ToInt16(x + y) == ToInt16(x' + y')
  {
    ToInt16Congruent(x, x');
    ToInt16Congruent(y, y');
    ToInt16Congruent(x + y, x' + y');
  }

  function Min(a: int, b: int): int { if a < b then a else b }
}
