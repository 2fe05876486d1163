/** The streaming digest of file-catalog.ts, proved against the whole-message one of Md5Spec. */
module Md5 {
  import opened Words
  import opened Blocks
  import opened Md5Spec

  /** The signed number the code calls `mixed`. */
  function JsMixed(round: nat, b: Word, c: Word, d: Word): int {
    if round == 0 then JsBit(Or, JsBit(And, b, c), JsBit(And, JsNot(b), d))
    else if round == 1 then JsBit(Or, JsBit(And, d, b), JsBit(And, JsNot(d), c))
    else if round == 2 then JsBit(Xor, JsBit(Xor, b, c), d)
    else JsBit(Xor, c, JsBit(Or, b, JsNot(d)))
  }

  lemma MixedF(b: Word, c: Word, d: Word)
    ensures Denotes(JsMixed(0, b, c, d), Mix(0, b, c, d))
  {
    NotDenotes(b);
    BitDenotes(And, b, c, b, c);
    BitDenotes(And, JsNot(b), d, NotWord(b), d);
    BitDenotes(Or, JsBit(And, b, c), JsBit(And, JsNot(b), d), BitWord(And, b, c), BitWord(And, NotWord(b), d));
  }

  /** The code writes RFC 1321's G with the operands of both conjunctions swapped. */
  lemma MixedG(b: Word, c: Word, d: Word)
    ensures Denotes(JsMixed(1, b, c, d), Mix(1, b, c, d))
  {
    BitwiseCommutes(And, d, b, 32);
    BitwiseCommutes(And, NotWord(d), c, 32);
    NotDenotes(d);
    BitDenotes(And, d, b, d, b);
    BitDenotes(And, JsNot(d), c, NotWord(d), c);
    BitDenotes(Or, JsBit(And, d, b), JsBit(And, JsNot(d), c), BitWord(And, d, b), BitWord(And, NotWord(d), c));
  }

  lemma MixedH(b: Word, c: Word, d: Word)
    ensures Denotes(JsMixed(2, b, c, d), Mix(2, b, c, d))
  {
    BitDenotes(Xor, b, c, b, c);
    BitDenotes(Xor, JsBit(Xor, b, c), d, BitWord(Xor, b, c), d);
  }

  lemma MixedI(b: Word, c: Word, d: Word)
    ensures Denotes(JsMixed(3, b, c, d), Mix(3, b, c, d))
  {
    NotDenotes(d);
    BitDenotes(Or, b, JsNot(d), b, NotWord(d));
    BitDenotes(Xor, c, JsBit(Or, b, JsNot(d)), c, BitWord(Or, b, NotWord(d)));
  }

  lemma MixedIsMix(i: nat, b: Word, c: Word, d: Word)
    requires i < 64
    ensures Denotes(JsMixed(i / 16, b, c, d), Mix(i / 16, b, c, d))
  {
    MixedF(b, c, d);
    MixedG(b, c, d);
    MixedH(b, c, d);
    MixedI(b, c, d);
  }

  lemma SumIsModular(a: Word, mixed: int, k: Word, w: Word)
    ensures ToUint32(a + mixed + k + w) == AddWord(AddWord(AddWord(a, ToUint32(mixed)), w), k)
  {
    AddIsModular(a, mixed);
    AddIsModular(a + mixed, w);
    AddIsModular(a + mixed + w, k);
    assert a + mixed + k + w == a + mixed + w + k;
  }

  lemma SecondRoundIndex(i: nat)
    requires 16 <= i < 32
    ensures WordOrder(i) == (5 * i + 1) % 16
  {
    match i
    case 16 => case 17 => case 18 => case 19 => case 20 => case 21 => case 22 => case 23 =>
    case 24 => case 25 => case 26 => case 27 => case 28 => case 29 => case 30 => case _ =>
  }

  lemma ThirdRoundIndex(i: nat)
    requires 32 <= i < 48
    ensures WordOrder(i) == (3 * i + 5) % 16
  {
    match i
    case 32 => case 33 => case 34 => case 35 => case 36 => case 37 => case 38 => case 39 =>
    case 40 => case 41 => case 42 => case 43 => case 44 => case 45 => case 46 => case _ =>
  }

  lemma FourthRoundIndex(i: nat)
    requires 48 <= i < 64
    ensures WordOrder(i) == (7 * i) % 16
  {
    match i
    case 48 => case 49 => case 50 => case 51 => case 52 => case 53 => case 54 => case 55 =>
    case 56 => case 57 => case 58 => case 59 => case 60 => case 61 => case 62 => case _ =>
  }

  /** Round 2 reads every fifth word, round 3 every third and round 4 every seventh. */
  lemma WordIndexFormula(i: nat)
    requires i < 64
    ensures WordOrder(i) == if i < 16 then i
                            else if i < 32 then (5 * i + 1) % 16
                            else if i < 48 then (3 * i + 5) % 16
                            else (7 * i) % 16
  {
    if i < 16 {
    } else {
      hide WordOrder;
      if i < 32 { SecondRoundIndex(i); } else if i < 48 { ThirdRoundIndex(i); } else { FourthRoundIndex(i); }
    }
  }

  /** The value one pass of the code's loop body gives `b`. */
  function JsStep(v: Registers, block: Block, i: nat): Word
    requires i < 64
  {
    var wordIndex := if i < 16 then i
                     else if i < 32 then (5 * i + 1) % 16
                     else if i < 48 then (3 * i + 5) % 16
                     else (7 * i) % 16;
    var sum := v.a + JsMixed(i / 16, v.b, v.c, v.d) + Sine(i) + WordAt(block, wordIndex);
    ToUint32(v.b + JsRotateLeft(ToUint32(sum), Rotation(i)))
  }

  lemma JsStepIsStep(v: Registers, block: Block, i: nat)
    requires i < 64
    ensures JsStep(v, block, i) == Step(v, block, i)
  {
    var mixed, mix := JsMixed(i / 16, v.b, v.c, v.d), Mix(i / 16, v.b, v.c, v.d);
    MixedIsMix(i, v.b, v.c, v.d);
    DenotedWord(mixed, mix);
    WordIndexFormula(i);
    var w, k := WordAt(block, WordOrder(i)), Sine(i);
    SumIsModular(v.a, mixed, k, w);
    var sum := AddWord(AddWord(AddWord(v.a, mix), w), k);
    RotateLeftIsCircular(sum, Rotation(i));
    AddIsModular(v.b, RotateWord(sum, Rotation(i)));
  }

  /** The code renames its four variables every step; RFC 1321 renames the registers instead. */
  lemma RenamedStep(r: Registers, i: nat, v: Word)
    ensures var args := Arguments(r, i);
      Arguments(Overwrite(r, i, v), i + 1) == Registers(args.d, v, args.b, args.c)
  {
  }

  lemma NextOperation(r0: Registers, block: Block, i: nat, v: Registers)
    requires i < 64 && v == Arguments(Operations(r0, block, i), i)
    ensures Arguments(Operations(r0, block, i + 1), i + 1)
            == Registers(v.d, JsStep(v, block, i), v.b, v.c)
  {
    JsStepIsStep(v, block, i);
    RenamedStep(Operations(r0, block, i), i, Step(v, block, i));
  }

  lemma Feedback(r0: Registers, block: Block, v: Registers)
    requires v == Arguments(Operations(r0, block, 64), 64)
    ensures Compress(r0, block)
            == Registers(ToUint32(r0.a + v.a), ToUint32(r0.b + v.b), ToUint32(r0.c + v.c), ToUint32(r0.d + v.d))
  {
    hide Operations, AddWord;
    assert Operations(r0, block, |block|) == v;
    AddIsModular(r0.a, v.a);
    AddIsModular(r0.b, v.b);
    AddIsModular(r0.c, v.c);
    AddIsModular(r0.d, v.d);
  }

  /** The sixty-four passes of `transform`, then the four additions to the buffer. */
  method Rounds(a0: Word, b0: Word, c0: Word, d0: Word, block: Block)
    returns (ra: Word, rb: Word, rc: Word, rd: Word)
    ensures Registers(ra, rb, rc, rd) == Compress(Registers(a0, b0, c0, d0), block)
  {
    var a, b, c, d := a0, b0, c0, d0;
    ghost var r0 := Registers(a0, b0, c0, d0);
    var index := 0;
    while index < 64
      invariant 0 <= index <= 64
      invariant Registers(a, b, c, d) == Arguments(Operations(r0, block, index), index)
    {
      NextOperation(r0, block, index, Registers(a, b, c, d));
      var mixed := JsStep(Registers(a, b, c, d), block, index);
      var previousD := d;
      d := c;
      c := b;
      b := mixed;
      a := previousD;
      index := index + 1;
    }
    Feedback(r0, block, Registers(a, b, c, d));
    ra, rb, rc, rd := ToUint32(a0 + a), ToUint32(b0 + b), ToUint32(c0 + c), ToUint32(d0 + d);
  }

  datatype Result = Hexadecimal(digest: string) | AlreadyFinalized

  /** The bytes `hex` appends are the ones sections 3.1 and 3.2 of RFC 1321 append. */
  lemma PaddingCompletes(message: Bytes, blocks: nat, paddingLength: nat, padding: Bytes)
    requires blocks % 64 == 0 && blocks <= |message| < blocks + 64
    requires 8 * |message| < 0x20_0000_0000_0000
    requires var pendingLength := |message| - blocks;
      paddingLength == if pendingLength < 56 then 56 - pendingLength else 120 - pendingLength
    requires padding == [0x80] + Zeros(paddingLength - 1)
                        + LittleEndian(ToUint32(8 * |message|), 4)
                        + LittleEndian(ToUint32(8 * |message| / 0x1_0000_0000), 4)
    ensures message + padding == Padded(message)
  {
    PadLength(|message|, blocks);
    LengthInTwoWords(8 * |message|);
    Regroup(message, [0x80], Zeros(paddingLength - 1), LittleEndian(ToUint32(8 * |message|), 4),
            LittleEndian(ToUint32(8 * |message| / 0x1_0000_0000), 4));
  }

  lemma Regroup(message: Bytes, mark: Bytes, zeros: Bytes, low: Bytes, high: Bytes)
    ensures message + (mark + zeros + low + high) == message + mark + zeros + (low + high)
  {
  }

  lemma PadLength(length: nat, blocks: nat)
    requires blocks % 64 == 0 && blocks <= length < blocks + 64
    ensures var p := length - blocks;
      PadZeros(length) == (if p < 56 then 56 - p else 120 - p) - 1
  {
  }

  lemma LengthInTwoWords(n: nat)
    requires n < 0x20_0000_0000_0000
    ensures LittleEndian(n, 8)
            == LittleEndian(ToUint32(n), 4) + LittleEndian(ToUint32(n / 0x1_0000_0000), 4)
  {
    var low, high := n % 0x1_0000_0000, n / 0x1_0000_0000;
    ToUint32IsModulo(n, high, low);
    ToUint32IsModulo(high, 0, high);
    ShiftedBy4(high);
    ShiftedBy4(1);
    LowDigits(low, high, 4);
  }

  /** n * 256^width */
  function Shifted(n: nat, width: nat): nat {
    if width == 0 then n else 256 * Shifted(n, width - 1)
  }

  lemma ShiftedBy4(n: nat)
    ensures Shifted(n, 4) == 0x1_0000_0000 * n
  {
    assert Shifted(n, 1) == 256 * Shifted(n, 0);
    assert Shifted(n, 2) == 256 * Shifted(n, 1);
    assert Shifted(n, 3) == 256 * Shifted(n, 2);
    assert Shifted(n, 4) == 256 * Shifted(n, 3);
  }

  /** The low `width` digits of low + high * 256^width are those of `low`. */
  lemma {:induction false} LowDigits(low: nat, high: nat, width: nat)
    requires low < Shifted(1, width)
    ensures LittleEndian(low + Shifted(high, width), width + 4) == LittleEndian(low, width) + LittleEndian(high, 4)
  {
    if width > 0 {
      var n, m := low + Shifted(high, width), Shifted(high, width - 1);
      assert n / 256 == low / 256 + m && n % 256 == low % 256 by { PeelByte(low, m); }
      LowDigits(low / 256, high, width - 1);
    }
  }

  /** Adding a multiple of 256 changes neither the low byte nor what `low` adds above it. */
  lemma PeelByte(low: nat, m: nat)
    ensures (low + 256 * m) / 256 == low / 256 + m
    ensures (low + 256 * m) % 256 == low % 256
  {
  }

  lemma WholeBlocks(blocks: Bytes, rest: Bytes, all: Bytes)
    requires |blocks| % 64 == 0 && |rest| < 64 && blocks + rest == all && |all| % 64 == 0
    ensures blocks == all
  {
    assert |all| == |blocks| + |rest|;
    assert rest == [];
  }

  class Md5 {
    const state: array<Word>
    const pending: array<Byte>
    var pendingLength: nat
    var byteLength: nat
    var finished: bool
    ghost var blocks: Bytes  // the bytes already run through `transform`

    ghost predicate Valid()
      reads this, state, pending
    {
      Streaming() && byteLength == |Absorbed()|
    }

    ghost predicate Streaming()
      reads this, state, pending
    {
      && state.Length == 4 && pending.Length == 64 && pendingLength < 64
      && |blocks| % 64 == 0
      && Buffer() == Fold(Compress, INITIAL, blocks)
    }

    /** Everything passed to `update` so far. */
    ghost function Absorbed(): Bytes
      requires Streaming()
      reads this, state, pending
    {
      blocks + pending[..pendingLength]
    }

    ghost function Buffer(): Registers
      requires state.Length == 4
      reads state
    {
      Registers(state[0], state[1], state[2], state[3])
    }

    constructor ()
      ensures Valid() && fresh(state) && fresh(pending)
      ensures Absorbed() == [] && !finished
    {
      state := new Word[4] [0x67452301, 0xefcdab89, 0x98badcfe, 0x10325476];
      pending := new Byte[64];
      pendingLength, byteLength, finished, blocks := 0, 0, false, [];
    }

    /** file-catalog.ts `transform`: the buffer moves by one application of the compression. */
    method Transform()
      requires state.Length == 4 && pending.Length == 64
      modifies state
      ensures Buffer() == Compress(old(Buffer()), pending[..])
    {
      var a, b, c, d := Rounds(state[0], state[1], state[2], state[3], pending[..]);
      state[0] := a;
      state[1] := b;
      state[2] := c;
      state[3] := d;
    }

    /** The body of the loop in `update`: fill the pending block and run it once it is full. */
    method Take(piece: Bytes)
      requires Streaming() && 0 < |piece| <= 64 - pendingLength
      modifies this`pendingLength, this`blocks, state, pending
      ensures Streaming() && Absorbed() == old(Absorbed()) + piece
    {
      hide Compress;
      ghost var block := pending[..pendingLength] + piece;
      assert Absorbed() + piece == blocks + block;
      forall k | 0 <= k < |piece| {
        pending[pendingLength + k] := piece[k];
      }
      pendingLength := pendingLength + |piece|;
      assert pending[..pendingLength] == block;
      if pendingLength == 64 {
        assert pending[..] == block;
        FoldOneMore(Compress, INITIAL, blocks, block);
        Transform();
        blocks := blocks + block;
        pendingLength := 0;
        assert blocks + pending[..0] == blocks;
      }
    }

    /** file-catalog.ts `update`. */
    method Update(bytes: Bytes) returns (ok: bool)
      requires Valid()
      modifies this, state, pending
      ensures Valid() && finished == old(finished)
      ensures ok == !old(finished)
      ensures Absorbed() == if ok then old(Absorbed()) + bytes else old(Absorbed())
    {
      hide Compress;
      if finished {
        return false;
      }
      byteLength := byteLength + |bytes|;
      var offset := 0;
      while offset < |bytes|
        invariant 0 <= offset <= |bytes|
        invariant Streaming() && Absorbed() == old(Absorbed()) + bytes[..offset]
        modifies this`pendingLength, this`blocks, state, pending
      {
        var length := if 64 - pendingLength < |bytes| - offset then 64 - pendingLength else |bytes| - offset;
        Take(bytes[offset..offset + length]);
        assert bytes[..offset + length] == bytes[..offset] + bytes[offset..offset + length];
        offset := offset + length;
      }
      assert bytes[..offset] == bytes;
      return true;
    }

    /** file-catalog.ts `hex`: the padding is one more `update`, after which the object is spent. */
    method HexDigest() returns (r: Result)
      requires Valid() && 8 * byteLength < 0x20_0000_0000_0000
      modifies this, state, pending
      ensures r == if old(finished) then AlreadyFinalized else Hexadecimal(Digest(old(Absorbed())))
      ensures finished
    {
      hide Compress;
      if finished {
        return AlreadyFinalized;
      }
      ghost var message := Absorbed();
      var bitLength := byteLength * 8;
      var paddingLength := if pendingLength < 56 then 56 - pendingLength else 120 - pendingLength;
      var padding := [0x80] + Zeros(paddingLength - 1)
                     + LittleEndian(ToUint32(bitLength), 4)
                     + LittleEndian(ToUint32(bitLength / 0x1_0000_0000), 4);
      PaddingCompletes(message, |blocks|, paddingLength, padding);
      var ok := Update(padding);
      finished := true;
      WholeBlocks(blocks, pending[..pendingLength], Padded(message));
      r := Hexadecimal(Hex(RegisterBytes(Registers(state[0], state[1], state[2], state[3]))));
    }
  }
}
