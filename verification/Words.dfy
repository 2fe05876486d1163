/**
 The 32-bit arithmetic that JavaScript performs on doubles, and the modular words that
 RFC 1321 is written in.

 JavaScript has no word type: `&`, `|`, `^`, `~` and `<<` return a SIGNED 32-bit number, `>>>`
 returns an unsigned one, and `+` is exact below 2^53.  The `Js*` functions follow those rules
 on `int`; the `*Word` functions are the modular operations of RFC 1321 section 2.
 */
module Words {
  type Byte = x: int | 0 <= x < 256
  type Word = x: int | 0 <= x < 0x1_0000_0000

  datatype BitOp = And | Or | Xor

  function Bit(op: BitOp, x: int, y: int): (b: int)
    requires 0 <= x < 2 && 0 <= y < 2
    ensures 0 <= b < 2
  {
    match op
    case And => if x == 1 && y == 1 then 1 else 0
    case Or => if x == 1 || y == 1 then 1 else 0
    case Xor => if x == y then 0 else 1
  }

  function Pow2(n: nat): (p: nat)
    ensures p > 0
  {
    if n == 0 then 1 else 2 * Pow2(n - 1)
  }

  /** The low `n` bits of `x op y`, computed bit by bit. */
  function Bitwise(op: BitOp, x: nat, y: nat, n: nat): (r: nat)
    ensures r < Pow2(n)
  {
    if n == 0 then 0 else 2 * Bitwise(op, x / 2, y / 2, n - 1) + Bit(op, x % 2, y % 2)
  }

  lemma Pow2Is32()
    ensures Pow2(31) == 0x8000_0000 && Pow2(32) == 0x1_0000_0000
  {
    assert Pow2(8) == 256;
    assert Pow2(16) == 256 * Pow2(8);
    assert Pow2(24) == 256 * Pow2(16);
    assert Pow2(31) == 128 * Pow2(24);
  }

  function BitWord(op: BitOp, x: Word, y: Word): Word
  {
    Pow2Is32();
    Bitwise(op, x, y, 32)
  }

  function NotWord(x: Word): Word {
    var w: int := x; 0xffff_ffff - w
  }

  /** Addition modulo 2^32. */
  function AddWord(x: Word, y: Word): Word {
    var sum: int := x + y; if sum < 0x1_0000_0000 then sum else sum - 0x1_0000_0000
  }

  /** `x <<< s`: one bit at a time, the top bit moves to the bottom. */
  function RotateWord(x: Word, s: nat): Word {
    if s == 0 then x
    else var y: int := RotateWord(x, s - 1);
         if y < 0x8000_0000 then 2 * y else 2 * (y - 0x8000_0000) + 1
  }

  // ------------------------------------------------------------------ JavaScript numbers

  /** `x >>> 0`: x modulo 2^32 (ECMA-262 section 7.1.7), by wrapping around. */
  function ToUint32(x: int): Word
    decreases if x < 0 then 0x1_0000_0000 - x else x
  {
    if x < 0 then ToUint32(x + 0x1_0000_0000)
    else if x < 0x1_0000_0000 then x
    else ToUint32(x - 0x1_0000_0000)
  }

  /** The signed reading every other bitwise operator returns (ECMA-262 section 7.1.6). */
  function ToInt32(x: int): int {
    var w: int := ToUint32(x); if w < 0x8000_0000 then w else w - 0x1_0000_0000
  }

  function JsBit(op: BitOp, x: int, y: int): int {
    ToInt32(BitWord(op, ToUint32(x), ToUint32(y)))
  }

  function JsNot(x: int): int {
    -ToInt32(x) - 1
  }

  function JsShiftLeft(x: int, s: nat): int {
    if s == 0 then ToInt32(x) else ToInt32(2 * JsShiftLeft(x, s - 1))
  }

  function JsShiftRight(x: int, s: nat): Word {
    if s == 0 then ToUint32(x) else JsShiftRight(x, s - 1) / 2
  }

  /** file-catalog.ts `rotateLeft`: shift, unsigned shift, OR, and back to unsigned. */
  function JsRotateLeft(value: int, bits: nat): Word
    requires bits <= 32
  {
    ToUint32(JsBit(Or, JsShiftLeft(value, bits), JsShiftRight(value, 32 - bits)))
  }

  /** `ToUint32` picks the one word that differs from `x` by a multiple of 2^32. */
  lemma {:induction false} ToUint32IsModulo(x: int, k: int, w: Word)
    requires x == w + k * 0x1_0000_0000
    ensures ToUint32(x) == w
    decreases if k < 0 then -k else k
  {
    if k < 0 {
      ToUint32IsModulo(x + 0x1_0000_0000, k + 1, w);
    } else if k > 0 {
      ToUint32IsModulo(x - 0x1_0000_0000, k - 1, w);
    }
  }

  lemma {:induction false} Quotient(x: int) returns (k: int)
    ensures x == ToUint32(x) + k * 0x1_0000_0000
    decreases if x < 0 then 0x1_0000_0000 - x else x
  {
    if x < 0 {
      k := Quotient(x + 0x1_0000_0000);
      k := k - 1;
    } else if x < 0x1_0000_0000 {
      k := 0;
    } else {
      k := Quotient(x - 0x1_0000_0000);
      k := k + 1;
    }
  }

  lemma AddIsModular(x: int, y: int)
    ensures ToUint32(x + y) == AddWord(ToUint32(x), ToUint32(y))
  {
    var k := Quotient(x);
    var l := Quotient(y);
    var u: int, v: int := ToUint32(x), ToUint32(y);
    if u + v < 0x1_0000_0000 {
      ToUint32IsModulo(x + y, k + l, u + v);
    } else {
      ToUint32IsModulo(x + y, k + l + 1, u + v - 0x1_0000_0000);
    }
  }

  // ------------------------------------------------------------------ signed and unsigned

  /** `x` is the unsigned or the signed reading of the word `w`. */
  predicate Denotes(x: int, w: Word) {
    x == w || x == w - 0x1_0000_0000
  }

  lemma DenotedWord(x: int, w: Word)
    requires Denotes(x, w)
    ensures ToUint32(x) == w
  {
  }

  lemma BitDenotes(op: BitOp, x: int, y: int, u: Word, v: Word)
    requires Denotes(x, u) && Denotes(y, v)
    ensures Denotes(JsBit(op, x, y), BitWord(op, u, v))
  {
    DenotedWord(x, u);
    DenotedWord(y, v);
    SignedDenotes(BitWord(op, u, v));
  }

  lemma SignedDenotes(w: Word)
    ensures Denotes(ToInt32(w), w)
  {
  }

  lemma NotDenotes(w: Word)
    ensures Denotes(JsNot(w), NotWord(w))
  {
  }

  lemma {:induction false} BitwiseCommutes(op: BitOp, x: nat, y: nat, n: nat)
    ensures Bitwise(op, x, y, n) == Bitwise(op, y, x, n)
  {
    if n > 0 {
      BitwiseCommutes(op, x / 2, y / 2, n - 1);
    }
  }

  // ------------------------------------------------------------------ rotation

  lemma Doubled(p: int, q: int)
    ensures (2 * p) * q == 2 * (p * q) == p * (2 * q)
  {
  }

  lemma {:induction false} PowSplit(s: nat, n: nat)
    requires s <= n
    ensures Pow2(s) * Pow2(n - s) == Pow2(n)
  {
    if s > 0 {
      PowSplit(s - 1, n - 1);
      var p, q, r := Pow2(s - 1), Pow2(n - s), Pow2(n - 1);
      assert Pow2(s) == 2 * p && Pow2(n) == 2 * r && p * q == r;
      hide Pow2;
      Doubled(p, q);
    }
  }

  lemma Monotone(a: nat, b: nat, c: nat)
    requires a <= b
    ensures a * c <= b * c
  {
    assert b * c == a * c + (b - a) * c;
  }

  lemma PartBelow(low: nat, q: nat, rest: nat, p: nat)
    requires low < q && rest < p
    ensures 0 <= low * p && low * p + rest < p * q
  {
    Monotone(0, low, p);
    Monotone(low + 1, q, p);
    assert (low + 1) * p == low * p + p;
    assert q * p == p * q;
  }

  /** Splitting off the top bit of `high`, one of the steps of a rotation by `s` bits. */
  lemma CarryTopBit(high: nat, low: nat, p: nat, q: nat, top: nat, rest: nat, low': nat)
    requires high == 2 * rest + top && low' == if top == 1 then q + low else low
    requires top < 2 && p * q == 0x8000_0000
    ensures high * q + low == rest * (2 * q) + low'
    ensures low' * p == (if top == 1 then 0x8000_0000 else 0) + low * p
    ensures low * (2 * p) == 2 * (low * p)
  {
    assert high * q == 2 * (rest * q) + top * q;
    assert rest * (2 * q) == 2 * (rest * q);
    assert (q + low) * p == p * q + low * p;
  }

  /** After `s` steps the top `s` bits, `high`, have moved below the rest, `low`. */
  lemma {:induction false} RotateSwapsHalves(s: nat, high: nat, low: nat, x: Word, p: nat, q: nat)
    requires s <= 32 && p == Pow2(s) && q == Pow2(32 - s)
    requires high < p && low < q && x == high * q + low
    ensures 0 <= low * p
    ensures RotateWord(x, s) == low * p + high
    ensures ToUint32(JsShiftLeft(x, s)) == low * p
  {
    if s > 0 {
      var half := Pow2(s - 1);
      var top, rest := high % 2, high / 2;
      var low' := if top == 1 then q + low else low;
      Pow2Is32();
      PowSplit(s - 1, 31);
      CarryTopBit(high, low, half, q, top, rest, low');
      RotateSwapsHalves(s - 1, rest, low', x, half, 2 * q);
      PartBelow(low, q, rest, half);
      RotateOnce(JsShiftLeft(x, s - 1), RotateWord(x, s - 1), top, low * half, rest);
    }
  }

  lemma RotateOnce(shifted: int, y: int, top: nat, low: nat, rest: nat)
    requires top < 2 && low + rest < 0x8000_0000
    requires ToUint32(shifted) == (if top == 1 then 0x8000_0000 else 0) + low
    requires y == (if top == 1 then 0x8000_0000 else 0) + low + rest
    ensures (if y < 0x8000_0000 then 2 * y else 2 * (y - 0x8000_0000) + 1) == 2 * low + 2 * rest + top
    ensures ToUint32(ToInt32(2 * shifted)) == 2 * low
  {
    var k := Quotient(shifted);
    ToUint32IsModulo(2 * shifted, 2 * k + top, 2 * low);
    SignedDenotes(2 * low);
    DenotedWord(ToInt32(2 * low), 2 * low);
  }

  lemma {:induction false} ShiftRightDrops(x: Word, t: nat, high: nat, low: nat)
    requires low < Pow2(t) && x == high * Pow2(t) + low
    ensures JsShiftRight(x, t) == high
  {
    if t > 0 {
      var p := Pow2(t - 1);
      var top := if low < p then 0 else 1;
      assert Pow2(t) == 2 * p;
      Doubled(high, p);
      assert (2 * high + 1) * p == (2 * high) * p + p;
      ShiftRightDrops(x, t - 1, 2 * high + top, low - if top == 1 then p else 0);
    }
  }

  /** OR-ing two numbers whose bits do not overlap adds them. */
  lemma {:induction false} OrOfDisjointBits(k: nat, b: nat, s: nat, n: nat)
    requires b < Pow2(s)
    requires k * Pow2(s) < Pow2(n) && b < Pow2(n)
    ensures Bitwise(Or, k * Pow2(s), b, n) == k * Pow2(s) + b
  {
    if n > 0 && s > 0 {
      var half := k * Pow2(s - 1);
      assert k * Pow2(s) == 2 * half;
      OrOfDisjointBits(k, b / 2, s - 1, n - 1);
    } else if n > 0 {
      assert k * Pow2(s) == k;
      OrOfDisjointBits(k / 2, 0, 0, n - 1);
    }
  }

  lemma SplitAt(x: Word, q: nat, p: nat) returns (high: nat, low: nat)
    requires q > 0 && p * q == 0x1_0000_0000
    ensures x == high * q + low && low < q && high < p
  {
    high, low := x / q, x % q;
    assert p <= high ==> p * q <= high * q by {
      if p <= high { Monotone(p, high, q); }
    }
  }

  lemma RotateLeftIsCircular(x: Word, bits: nat)
    requires bits <= 32
    ensures JsRotateLeft(x, bits) == RotateWord(x, bits)
  {
    var p, q := Pow2(bits), Pow2(32 - bits);
    PowSplit(bits, 32);
    Pow2Is32();
    var high, low := SplitAt(x, q, p);
    PartBelow(low, q, high, p);
    RotateSwapsHalves(bits, high, low, x, p, q);
    ShiftRightDrops(x, 32 - bits, high, low);
    OrOfDisjointBits(low, high, bits, 32);
    JoinHalves(JsShiftLeft(x, bits), high, low * p, RotateWord(x, bits));
  }

  lemma JoinHalves(shifted: int, right: Word, left: Word, merged: Word)
    requires ToUint32(shifted) == left && BitWord(Or, left, right) == merged
    ensures ToUint32(JsBit(Or, shifted, right)) == merged
  {
    SignedDenotes(merged);
    DenotedWord(ToInt32(merged), merged);
  }
}
