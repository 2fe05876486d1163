/**
 The MD5 message digest as sections 3.1 to 3.5 of RFC 1321 define it: pad the WHOLE message,
 append its length, run sixteen-word blocks through four rounds over the named registers
 A, B, C, D, and print the registers low-order byte first.
 */
module Md5Spec {
  import opened Words
  import opened Blocks
  import opened Options

  datatype Registers = Registers(a: Word, b: Word, c: Word, d: Word)

  // ------------------------------------------------- sections 3.1 and 3.2: padding and length

  function Zeros(n: nat): (z: Bytes)
    ensures |z| == n && forall i :: 0 <= i < n ==> z[i] == 0
  {
    seq(n, i => 0)
  }

  /** The fewest zero bytes that leave the padded message 8 bytes short of a block boundary. */
  function PadZeros(length: nat): (n: nat)
    ensures n < 64 && (length + 1 + n) % 64 == 56
  {
    (55 - length) % 64
  }

  function LittleEndian(n: nat, width: nat): (b: Bytes)
    ensures |b| == width
  {
    if width == 0 then [] else [n % 256] + LittleEndian(n / 256, width - 1)
  }

  function Padded(message: Bytes): (p: Bytes)
    ensures |p| % 64 == 0
  {
    var zeros := PadZeros(|message|);
    assert (|message| + 1 + zeros + 8) % 64 == 0;
    message + [0x80] + Zeros(zeros) + LittleEndian(8 * |message|, 8)
  }

  // ------------------------------------------------- section 3.3: the buffer

  const INITIAL := Registers(0x67452301, 0xefcdab89, 0x98badcfe, 0x10325476)

  // ------------------------------------------------- section 3.4: processing a block

  /** The rotation of operation `i`: each round cycles through four amounts. */
  function Rotation(i: nat): (s: nat)
    requires i < 64
    ensures s <= 32
  {
    var row := if i < 16 then [7, 12, 17, 22] else if i < 32 then [5, 9, 14, 20]
               else if i < 48 then [4, 11, 16, 23] else [6, 10, 15, 21];
    row[i % 4]
  }

  /** The order in which each round of RFC 1321 lists the sixteen words it reads. */
  function WordOrder(i: nat): (k: nat)
    requires i < 64
    ensures k < 16
  {
    var row := if i < 16 then [0, 1, 2, 3, 4, 5, 6, 7, 8, 9, 10, 11, 12, 13, 14, 15]
               else if i < 32 then [1, 6, 11, 0, 5, 10, 15, 4, 9, 14, 3, 8, 13, 2, 7, 12]
               else if i < 48 then [5, 8, 11, 14, 1, 4, 7, 10, 13, 0, 3, 6, 9, 12, 15, 2]
               else [0, 7, 14, 5, 12, 3, 10, 1, 8, 15, 6, 13, 4, 11, 2, 9];
    row[i % 16]
  }

  /** `T[i + 1]`, the integer part of 2^32 times |sin(i + 1)|. */
  const SINES: seq<Word> := [
    0xd76aa478, 0xe8c7b756, 0x242070db, 0xc1bdceee, 0xf57c0faf, 0x4787c62a, 0xa8304613, 0xfd469501,
    0x698098d8, 0x8b44f7af, 0xffff5bb1, 0x895cd7be, 0x6b901122, 0xfd987193, 0xa679438e, 0x49b40821,
    0xf61e2562, 0xc040b340, 0x265e5a51, 0xe9b6c7aa, 0xd62f105d, 0x02441453, 0xd8a1e681, 0xe7d3fbc8,
    0x21e1cde6, 0xc33707d6, 0xf4d50d87, 0x455a14ed, 0xa9e3e905, 0xfcefa3f8, 0x676f02d9, 0x8d2a4c8a,
    0xfffa3942, 0x8771f681, 0x6d9d6122, 0xfde5380c, 0xa4beea44, 0x4bdecfa9, 0xf6bb4b60, 0xbebfbc70,
    0x289b7ec6, 0xeaa127fa, 0xd4ef3085, 0x04881d05, 0xd9d4d039, 0xe6db99e5, 0x1fa27cf8, 0xc4ac5665,
    0xf4292244, 0x432aff97, 0xab9423a7, 0xfc93a039, 0x655b59c3, 0x8f0ccc92, 0xffeff47d, 0x85845dd1,
    0x6fa87e4f, 0xfe2ce6e0, 0xa3014314, 0x4e0811a1, 0xf7537e82, 0xbd3af235, 0x2ad7d2bb, 0xeb86d391]

  function Sine(i: nat): Word
    requires i < 64
  {
    SINES[i]
  }

  function WordAt(block: Block, i: nat): Word
    requires i < 16
  {
    var b0: int, b1: int, b2: int, b3: int := block[4 * i], block[4 * i + 1], block[4 * i + 2], block[4 * i + 3];
    b0 + 0x100 * b1 + 0x1_0000 * b2 + 0x100_0000 * b3
  }

  /** F, G, H and I of RFC 1321 section 3.4. */
  function Mix(round: nat, x: Word, y: Word, z: Word): Word {
    if round == 0 then BitWord(Or, BitWord(And, x, y), BitWord(And, NotWord(x), z))
    else if round == 1 then BitWord(Or, BitWord(And, x, z), BitWord(And, y, NotWord(z)))
    else if round == 2 then BitWord(Xor, BitWord(Xor, x, y), z)
    else BitWord(Xor, y, BitWord(Or, x, NotWord(z)))
  }

  /** The registers of operation `i`, listed [ABCD], [DABC], [CDAB] and [BCDA] in turn. */
  function Arguments(r: Registers, i: nat): Registers {
    if i % 4 == 0 then r
    else if i % 4 == 1 then Registers(r.d, r.a, r.b, r.c)
    else if i % 4 == 2 then Registers(r.c, r.d, r.a, r.b)
    else Registers(r.b, r.c, r.d, r.a)
  }

  /** Each operation overwrites the register it lists first. */
  function Overwrite(r: Registers, i: nat, v: Word): Registers {
    if i % 4 == 0 then r.(a := v)
    else if i % 4 == 1 then r.(d := v)
    else if i % 4 == 2 then r.(c := v)
    else r.(b := v)
  }

  /** [abcd k s i]: b + ((a + Mix(b, c, d) + X[k] + T[i]) <<< s). */
  function Step(r: Registers, block: Block, i: nat): Word
    requires i < 64
  {
    var sum := AddWord(AddWord(AddWord(r.a, Mix(i / 16, r.b, r.c, r.d)), WordAt(block, WordOrder(i))), Sine(i));
    AddWord(r.b, RotateWord(sum, Rotation(i)))
  }

  function Operation(r: Registers, block: Block, i: nat): Registers
    requires i < 64
  {
    Overwrite(r, i, Step(Arguments(r, i), block, i))
  }

  function Operations(r: Registers, block: Block, n: nat): Registers
    requires n <= 64
  {
    if n == 0 then r else Operation(Operations(r, block, n - 1), block, n - 1)
  }

  function Compress(r: Registers, block: Block): Registers
  {
    var q := Operations(r, block, |block|);
    Registers(AddWord(r.a, q.a), AddWord(r.b, q.b), AddWord(r.c, q.c), AddWord(r.d, q.d))
  }

  // ------------------------------------------------- section 3.5: output

  function RegisterBytes(r: Registers): Bytes {
    LittleEndian(r.a, 4) + LittleEndian(r.b, 4) + LittleEndian(r.c, 4) + LittleEndian(r.d, 4)
  }

  function HexDigit(n: nat): char
    requires n < 16
  {
    "0123456789abcdef"[n]
  }

  function Hex(bytes: Bytes): (s: string)
    ensures |s| == 2 * |bytes|
  {
    if bytes == [] then "" else [HexDigit(bytes[0] / 16), HexDigit(bytes[0] % 16)] + Hex(bytes[1..])
  }

  function Digest(message: Bytes): (s: string)
    ensures |s| == 32
  {
    Hex(RegisterBytes(Fold(Compress, INITIAL, Padded(message))))
  }

  // ------------------------------------------------- reading a digest

  function HexValue(c: char): Option<nat> {
    if '0' <= c <= '9' then Some(c as nat - '0' as nat)
    else if 'a' <= c <= 'f' then Some(10 + c as nat - 'a' as nat)
    else None
  }

  /** Two digits a byte, the high one first. */
  function ReadHex(s: string): Option<Bytes> {
    if s == "" then Some([])
    else if |s| == 1 || HexValue(s[0]) == None || HexValue(s[1]) == None then None
    else
      var n := 16 * HexValue(s[0]).value + HexValue(s[1]).value;
      var rest := ReadHex(s[2..]);
      if rest == None || n >= 256 then None else Some([n] + rest.value)
  }

  /** A number from its bytes, the low-order one first. */
  function ReadLittle(bytes: Bytes): nat {
    if bytes == [] then 0 else bytes[0] + 256 * ReadLittle(bytes[1..])
  }

  lemma DigitReads(n: nat)
    requires n < 16
    ensures HexValue(HexDigit(n)) == Some(n)
  {
  }

  lemma PairReads(c: char, d: char, n: Byte, rest: string, bytes: Bytes)
    requires HexValue(c) == Some(n as nat / 16) && HexValue(d) == Some(n as nat % 16) && ReadHex(rest) == Some(bytes)
    ensures ReadHex([c, d] + rest) == Some([n] + bytes)
  {
    hide HexValue;
    assert ([c, d] + rest)[2..] == rest;
  }

  lemma {:induction false} HexReads(bytes: Bytes)
    ensures ReadHex(Hex(bytes)) == Some(bytes)
  {
    if bytes != [] {
      HexReads(bytes[1..]);
      DigitReads(bytes[0] / 16);
      DigitReads(bytes[0] % 16);
      hide HexDigit, HexValue, ReadHex;
      PairReads(HexDigit(bytes[0] / 16), HexDigit(bytes[0] % 16), bytes[0], Hex(bytes[1..]), bytes[1..]);
      assert bytes == [bytes[0]] + bytes[1..];
    } else {
      assert Hex(bytes) == "" && ReadHex("") == Some([]);
    }
  }

  lemma WordReads(w: Word)
    ensures ReadLittle(LittleEndian(w, 4)) == w
  {
    LittleOnce(w, 3);
    LittleOnce(w / 256, 2);
    LittleOnce(w / 256 / 256, 1);
    LittleOnce(w / 256 / 256 / 256, 0);
    hide LittleEndian, ReadLittle;
    assert w / 256 / 256 / 256 / 256 == 0;
    LittleNothing(w / 256 / 256 / 256 / 256);
  }

  lemma LittleNothing(n: nat)
    ensures ReadLittle(LittleEndian(n, 0)) == 0
  {
  }

  lemma LittleOnce(n: nat, width: nat)
    ensures ReadLittle(LittleEndian(n, width + 1)) == n % 256 + 256 * ReadLittle(LittleEndian(n / 256, width))
  {
    assert LittleEndian(n, width + 1)[1..] == LittleEndian(n / 256, width);
  }

  /**
   Main result: a digest is thirty-two lower-case digits that spell the registers A, B, C and D after the last block,
   each from its low-order byte, as section 3.5 asks.
   */
  lemma DigestSpellsRegisters(message: Bytes)
    ensures var bytes := ReadHex(Digest(message));
            var r := Fold(Compress, INITIAL, Padded(message));
            bytes.Some? && |bytes.value| == 16
            && ReadLittle(bytes.value[0..4]) == r.a && ReadLittle(bytes.value[4..8]) == r.b
            && ReadLittle(bytes.value[8..12]) == r.c && ReadLittle(bytes.value[12..16]) == r.d
  {
    hide Compress, LittleEndian, ReadLittle, Hex, ReadHex, Fold, Padded;
    var r := Fold(Compress, INITIAL, Padded(message));
    HexReads(RegisterBytes(r));
    WordReads(r.a);
    WordReads(r.b);
    WordReads(r.c);
    WordReads(r.d);
    var b := RegisterBytes(r);
    assert b[0..4] == LittleEndian(r.a, 4) && b[4..8] == LittleEndian(r.b, 4);
    assert b[8..12] == LittleEndian(r.c, 4) && b[12..16] == LittleEndian(r.d, 4);
  }
}
