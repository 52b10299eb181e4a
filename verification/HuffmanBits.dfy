/**
 Bits: what is still to be sent, what has been sent, and the bit packer that turns them into
 stuffed bytes (F.1.2.3 of ITU-T T.81).
 */
module HuffmanBits {
  import opened Numbers
  import opened Stuffing

  type Bit = b: nat | b <= 1

  /** Bits still to be read or sent, first one outermost. */
  datatype Bits = NoBits | Bit(b: Bit, rest: Bits)

  /** Bits already sent, last one outermost. */
  datatype Sent = Nothing | AndThen(past: Sent, b: Bit)

  /** What has been sent once all of p is. */
  function After(s: Sent, p: Bits): (r: Sent)
    decreases p
  {
    match p
    case NoBits => s
    case Bit(b, rest) => After(AndThen(s, b), rest)
  }

  /** The size low bits of code, highest first, and then rest. */
  function Low(code: int, size: nat, rest: Bits): (p: Bits) {
    if size == 0 then rest else Bit(Shr(code, size - 1) % 2, Low(code, size - 1, rest))
  }

  lemma {:induction false} LowThen(s: Sent, code: int, size: nat, rest: Bits)
    ensures After(s, Low(code, size, rest)) == After(After(s, Low(code, size, NoBits)), rest)
    decreases size
  {
    if size > 0 {
      LowThen(AndThen(s, Shr(code, size - 1) % 2), code, size - 1, rest);
    }
  }

  /** Higher bits do not matter. */
  lemma {:induction false} LowOfSum(x: int, q: int, n: nat, size: nat, rest: Bits)
    requires size <= n
    ensures Low(x + Shl(q, n), size, rest) == Low(x, size, rest)
    decreases size
  {
    if size > 0 {
      LowOfSum(x, q, n, size - 1, rest);
      ShrOfSum(x, q, n, size - 1);
      assert Shl(q, n - size + 1) == 2 * Shl(q, n - size);
    }
  }

  lemma {:induction false} ShrOfSum(x: int, q: int, n: nat, k: nat)
    requires k <= n
    ensures Shr(x + Shl(q, n), k) == Shr(x, k) + Shl(q, n - k)
  {
    if k > 0 {
      ShrOfSum(x, q, n, k - 1);
      assert Shl(q, n - k + 1) == 2 * Shl(q, n - k);
    }
  }

  /** The first of many bits and the others. */
  lemma {:induction false} LowSplit(code: int, n: nat, m: nat, rest: Bits)
    ensures Low(code, n + m, rest) == Low(Shr(code, m), n, Low(code, m, rest))
    decreases n
  {
    if n > 0 {
      LowSplit(code, n - 1, m, rest);
      ShrShr(code, m, n - 1);
    }
  }

  /** Bits put behind others. */
  lemma LowJoin(x: int, n: nat, c: int, size: nat, rest: Bits)
    requires 0 <= c < Shl(1, size)
    ensures Low(Shl(x, size) + c, n + size, rest) == Low(x, n, Low(c, size, rest))
  {
    LowSplit(Shl(x, size) + c, n, size, rest);
    ShrOfSum(c, x, size, size);
    ShrZero(c, size);
    LowOfSum(c, x, size, size, rest);
  }

  /** The bits of a byte string. */
  function SentBytes(u: seq<Byte>): (s: Sent) {
    if u == [] then Nothing else After(SentBytes(u[..|u| - 1]), Low(u[|u| - 1], 8, NoBits))
  }

  lemma SentBytesSnoc(u: seq<Byte>, b: Byte)
    ensures SentBytes(u + [b]) == After(SentBytes(u), Low(b, 8, NoBits))
  {
    assert (u + [b])[..|u|] == u;
  }

  /** The number of bits in the last byte, if it is not full. */
  function Phase(s: Sent): (n: nat)
    ensures n <= 7
  {
    match s
    case Nothing => 0
    case AndThen(past, _) => if Phase(past) == 7 then 0 else Phase(past) + 1
  }

  /** n modulo 8. */
  function InByte(n: nat): (m: nat)
    ensures m <= 7
  {
    if n <= 7 then n else InByte(n - 8)
  }

  lemma {:induction false} PhaseAfter(s: Sent, code: int, size: nat)
    ensures Phase(After(s, Low(code, size, NoBits))) == InByte(Phase(s) + size)
    decreases size
  {
    if size > 0 {
      PhaseAfter(AndThen(s, Shr(code, size - 1) % 2), code, size - 1);
    }
  }

  lemma {:induction false} PhaseOfBytes(u: seq<Byte>)
    ensures Phase(SentBytes(u)) == 0
  {
    if u != [] {
      PhaseOfBytes(u[..|u| - 1]);
      PhaseAfter(SentBytes(u[..|u| - 1]), u[|u| - 1], 8);
    }
  }

  /** One-bits up to the next byte boundary. */
  function Padding(n: nat): (p: Bits)
    requires n <= 7
  {
    if n == 0 then NoBits else Low(0x7F, 8 - n, NoBits)
  }

  function Padded(s: Sent): (r: Sent) {
    After(s, Padding(Phase(s)))
  }

  /** s without its last k bits. */
  function Drop(s: Sent, k: nat): (r: Sent)
    decreases s
  {
    if k == 0 || s == Nothing then s else Drop(s.past, k - 1)
  }

  lemma {:induction false} DropLow(s: Sent, code: int, size: nat)
    ensures Drop(After(s, Low(code, size, NoBits)), size) == s
    decreases size
  {
    if size > 0 {
      LowSplit(code, size - 1, 1, NoBits);
      var c := Shr(code, 1);
      LowThen(s, c, size - 1, Low(code, 1, NoBits));
      DropLow(s, c, size - 1);
      assert Low(code, 1, NoBits) == Bit(code % 2, NoBits);
    }
  }

  /** Seven one-bits fill the last byte, and what does not go into it is dropped. */
  lemma FillingUp(s: Sent, n: nat)
    requires n == Phase(s)
    ensures Drop(After(s, Low(0x7F, 7, NoBits)), if n == 0 then 7 else n - 1) == Padded(s)
  {
    if n == 0 {
      DropLow(s, 0x7F, 7);
    } else {
      LowSplit(0x7F, 8 - n, n - 1, NoBits);
      OnesAreOnes(8 - n, n - 1, Low(0x7F, n - 1, NoBits));
      LowThen(s, 0x7F, 8 - n, Low(0x7F, n - 1, NoBits));
      DropLow(Padded(s), 0x7F, n - 1);
    }
  }

  lemma {:induction false} OnesAreOnes(k: nat, m: nat, rest: Bits)
    requires k + m <= 7
    ensures Low(Shr(0x7F, m), k, rest) == Low(0x7F, k, rest)
  {
    if k > 0 {
      OnesAreOnes(k - 1, m, rest);
      ShrShr(0x7F, m, k - 1);
      AllOnes(m + k - 1);
      AllOnes(k - 1);
    }
  }

  lemma AllOnes(k: nat)
    requires k <= 6
    ensures Shr(0x7F, k) % 2 == 1
  {
    assert Shr(0x7F, 1) == 0x3F && Shr(0x7F, 2) == 0x1F;
    assert Shr(0x7F, 3) == 0x0F && Shr(0x7F, 4) == 0x07;
    assert Shr(0x7F, 5) == 0x03 && Shr(0x7F, 6) == 0x01;
  }

  // ----- the bit packer -----

  class BitWriter {
    var putBuffer: nat     // 32-bit accumulator; the bits held are left-justified in its low 24
    var putBits: nat       // number of bits held
    var out: seq<Byte>     // bytes written

    ghost var before: seq<Byte>  // what out held at the start of the segment
    ghost var data: seq<Byte>    // data bytes of the segment, unstuffed
    ghost var log: Sent          // bits of the segment

    /** The bits held, with some more above them. */
    ghost function Held(): (x: int)
      reads this
      requires putBits <= 24
    {
      Shr(putBuffer, 24 - putBits)
    }

    /** The accumulator holds the bits after those of the bytes written, and nothing below. */
    ghost predicate Packed()
      reads this
    {
      && putBits <= 24 && putBuffer == Shl(Held(), 24 - putBits)
      && out == before + Stuff(data) && log == After(SentBytes(data), Low(Held(), putBits, NoBits))
    }

    ghost predicate Valid()
      reads this
    {
      Packed() && putBits <= 7
    }

    constructor ()
      ensures Valid() && out == before == [] && data == [] && log == Nothing && putBits == 0
    {
      putBuffer, putBits, out := 0, 0, [];
      before, data, log := [], [], Nothing;
      new;
      ShrBounded(0, 24);
      ShlAdd(0, 0, 24);
    }

    method EmitByte(val: Byte)
      modifies `out
      ensures out == old(out) + [val]
    {
      out := out + [val];
    }

    /** Append one data byte with its stuffing. */
    method EmitStuffed(c: Byte)
      requires out == before + Stuff(data)
      modifies `out, `data
      ensures out == before + Stuff(data) && data == old(data) + [c]
    {
      StuffSnoc(data, c);
      EmitByte(c);
      if c == 0xFF {
        EmitByte(0);
      }
      data := data + [c];
    }

    static lemma TopByte(x: int, n: nat, c: int)
      requires 8 <= n <= 24 && c == Shl(x, 24 - n) / 0x1_0000 % 0x100
      ensures Low(x, n, NoBits) == Low(c, 8, Low(x, n - 8, NoBits))
    {
      var y := Shr(x, n - 8);
      ShrOfShl(x, 24 - n);
      ShrShr(Shl(x, 24 - n), 24 - n, n - 8);
      ShrIsDiv(Shl(x, 24 - n), 16);
      ShlOctet(1, 8);
      Shl8(1);
      LowSplit(x, 8, n - 8, NoBits);
      Shl8(y / 0x100);
      LowOfSum(c, y / 0x100, 8, 8, Low(x, n - 8, NoBits));
    }

    /** The eight bits about to leave the accumulator. */
    method TakeTop(ghost x: int, ghost n: nat) returns (c: Byte)
      requires 8 <= n <= 24 && putBuffer == Shl(x, 24 - n)
      ensures Low(x, n, NoBits) == Low(c, 8, Low(x, n - 8, NoBits))
    {
      c := putBuffer / 0x1_0000 % 0x100;
      TopByte(x, n, c);
    }

    static lemma ShiftedBuffer(x: int, n: nat, s: int, q: int, t: int)
      requires 8 <= n <= 24 && s == Shl(x, 24 - n) && 0x100 * s == 0x1_0000_0000 * q + t
      ensures t == Shl(Shr(t, 32 - n), 32 - n) && Low(Shr(t, 32 - n), n - 8, NoBits) == Low(x, n - 8, NoBits)
    {
      ShlShl(x, 24 - n, 8);
      Shl8(s);
      assert Shl(x, 32 - n) == 0x100 * s;
      TopBits(q);
      ShlShl(q, n, 32 - n);
      ShlAdd(x, -Shl(q, n), 32 - n);
      ShlNegate(Shl(q, n), 32 - n);
      ShrOfShl(x - Shl(q, n), 32 - n);
      LowOfSum(x - Shl(q, n), q, n, n - 8, NoBits);
    }

    static lemma TopBits(q: int)
      ensures Shl(q, 32) == 0x1_0000_0000 * q
    {
      Shl8(q);
      ShlOctet(q, 8);
      ShlOctet(q, 16);
      ShlOctet(q, 24);
    }

    static lemma ShlNegate(x: int, k: nat)
      ensures Shl(-x, k) == -Shl(x, k)
    {
      ShlAdd(x, -x, k);
      ShlAdd(0, 0, k);
    }

    /** Shift them out; the accumulator has 32 bits. */
    method ShiftOut(ghost x: int, ghost n: nat)
      requires 8 <= n <= 24 && putBuffer == Shl(x, 24 - n)
      modifies `putBuffer
      ensures putBuffer == Shl(Shr(putBuffer, 32 - n), 32 - n)
      ensures Low(Shr(putBuffer, 32 - n), n - 8, NoBits) == Low(x, n - 8, NoBits)
    {
      ghost var q := 0x100 * putBuffer / 0x1_0000_0000;
      ghost var s := putBuffer;
      putBuffer := 0x100 * putBuffer % 0x1_0000_0000;
      ShiftedBuffer(x, n, s, q, putBuffer);
    }

    /** Write one full byte of the bits held. */
    method WriteByte()
      requires Packed() && putBits >= 8
      modifies `out, `data, `putBuffer, `putBits
      ensures Packed() && putBits == old(putBits) - 8
    {
      ghost var x, n := Held(), putBits;
      var c := TakeTop(x, n);
      LowThen(SentBytes(data), c, 8, Low(x, n - 8, NoBits));
      SentBytesSnoc(data, c);
      EmitStuffed(c);
      ShiftOut(x, n);
      putBits := putBits - 8;
    }

    /** Bits put behind those held. */
    static lemma Joined(x: int, n: nat, c: int, size: nat, s: Sent, log: Sent)
      requires n + size <= 24 && 0 <= c < Shl(1, size) && log == After(s, Low(x, n, NoBits))
      ensures var y := Shl(x, size) + c;
              && Shl(y, 24 - n - size) == Shl(c, 24 - n - size) + Shl(x, 24 - n)
              && After(log, Low(c, size, NoBits)) == After(s, Low(y, n + size, NoBits))
    {
      var y := Shl(x, size) + c;
      ShlAdd(Shl(x, size), c, 24 - n - size);
      ShlShl(x, size, 24 - n - size);
      LowJoin(x, n, c, size, NoBits);
      LowThen(s, x, n, Low(c, size, NoBits));
    }

    /** The size low bits of code, as a number. */
    static function Masked(code: nat, size: nat): (c: nat)
      ensures c < Shl(1, size)
    {
      ShrShl(code, size);
      code - Shl(Shr(code, size), size)
    }

    static lemma MaskedBits(code: nat, size: nat, rest: Bits)
      ensures Low(Masked(code, size), size, rest) == Low(code, size, rest)
    {
      LowOfSum(Masked(code, size), Shr(code, size), size, size, rest);
    }

    /** Put the size low bits of code into the accumulator, without writing any byte. */
    method PutBits(code: nat, size: nat)
      requires Valid() && size <= 16
      modifies `putBuffer, `putBits, `log
      ensures Packed() && putBits == old(putBits) + size && log == After(old(log), Low(code, size, NoBits))
    {
      var c := Masked(code, size);
      MaskedBits(code, size, NoBits);
      ghost var x, n := Held(), putBits;
      Joined(x, n, c, size, SentBytes(data), log);
      ShrOfShl(Shl(x, size) + c, 24 - n - size);
      ShlOrder(0, c, 24 - n - size);
      ShlAdd(0, 0, 24 - n - size);
      putBits := putBits + size;
      putBuffer := Shl(c, 24 - putBits) + putBuffer;  // the parts do not overlap
      log := After(log, Low(code, size, NoBits));
    }

    /** Write the size low bits of code; fails if there are none. */
    method EmitBits(code: nat, size: nat, ghost rest: Bits) returns (ok: bool)
      requires Valid() && size <= 16
      modifies this
      ensures ok == (size != 0) && Valid() && before == old(before)
      ensures After(log, rest) == After(old(log), Low(code, size, rest))
    {
      if size == 0 {
        return false;
      }
      LowThen(log, code, size, rest);
      PutBits(code, size);
      while putBits >= 8
        invariant Packed() && before == old(before) && log == After(old(log), Low(code, size, NoBits))
      {
        WriteByte();
      }
      ok := true;
    }

    /** How many of seven one-bits more are left over. */
    static lemma LeftOver(s: Sent, log: Sent, ones: int, k: nat, u: seq<Byte>, x: int, n: nat)
      requires log == After(s, Low(ones, k, NoBits)) == After(SentBytes(u), Low(x, n, NoBits)) && n <= 7 && k == 7
      ensures n == if Phase(s) == 0 then 7 else Phase(s) - 1
    {
      PhaseAfter(s, ones, k);
      PhaseOfBytes(u);
      PhaseAfter(SentBytes(u), x, n);
    }

    /** What was written after seven one-bits more. */
    static lemma Flushed(s: Sent, log: Sent, u: seq<Byte>, x: int, n: nat)
      requires log == After(s, Low(0x7F, 7, NoBits)) == After(SentBytes(u), Low(x, n, NoBits)) && n <= 7
      ensures SentBytes(u) == Padded(s)
    {
      LeftOver(s, log, 0x7F, 7, u, x, n);
      FillingUp(s, Phase(s));
      DropLow(SentBytes(u), x, n);
    }

    /** Fill the last byte with ones and write it. */
    method FlushBits()
      requires Valid()
      modifies this
      ensures Valid() && putBits == 0 && before == old(before)
      ensures log == Padded(old(log)) == SentBytes(data)
    {
      ghost var s := log;
      var ok := EmitBits(0x7F, 7, NoBits);
      Flushed(s, log, data, Held(), putBits);
      putBuffer, putBits := 0, 0;
      log := SentBytes(data);
      ShrBounded(0, 24);
      ShlAdd(0, 0, 24);
    }

    /** End the segment, whose data is u, write a restart marker and begin a new segment. */
    method EmitRestart(num: nat) returns (ghost u: seq<Byte>)
      requires Valid() && num <= 7
      modifies this
      ensures Valid() && putBits == 0 && log == Nothing && data == []
      ensures SentBytes(u) == Padded(old(log)) && before == old(before) + Stuff(u) + [0xFF, 0xD0 + num]
    {
      FlushBits();
      u := data;
      EmitByte(0xFF);
      EmitByte(0xD0 + num);
      before, data, log := out, [], Nothing;
      assert before == old(before) + Stuff(u) + [0xFF, 0xD0 + num];
    }
  }
}
