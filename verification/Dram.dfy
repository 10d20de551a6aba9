/** The DRAM accessors: bytes, half-words, words and bits of a flat address space, kept in a memory
    where every 128 data bytes are followed by four bytes of error correction. */
module Dram {
  const DRAM_BASE: nat := 0x4000_0000
  const DRAM_SIZE: nat := 65075200
  const MEMORY: nat := 0x400_0000  // 64 MB

  predicate InDram(addr: nat) {
    DRAM_BASE <= addr < DRAM_BASE + DRAM_SIZE
  }

  /** Where the word at a logical address lies in memory. */
  function RealAddr(addr: nat): nat
    requires DRAM_BASE <= addr
  {
    DRAM_BASE + (addr - DRAM_BASE) / 128 * 132 + (addr - DRAM_BASE) % 128
  }

  /** A word is word k of the 32 in block q of 128 bytes. */
  lemma StrideParts(addr: nat) returns (q: nat, k: nat)
    requires InDram(addr) && addr % 4 == 0
    ensures k < 32 && addr == DRAM_BASE + 128 * q + 4 * k && RealAddr(addr) == DRAM_BASE + 132 * q + 4 * k
  {
    q, k := (addr - DRAM_BASE) / 128, (addr - DRAM_BASE) % 128 / 4;
  }

  lemma StrideBelow(a: nat, c: nat)
    requires InDram(a) && InDram(c) && a % 4 == 0 && c % 4 == 0 && a < c
    ensures RealAddr(a) + 4 <= RealAddr(c)
  {
    hide RealAddr;
    var q, k := StrideParts(a);
    var p, j := StrideParts(c);
    if q < p {
      assert q + 1 <= p;
    } else {
      assert q == p && k + 1 <= j;
    }
  }

  /** The stride puts different words at different places, in order, all inside the memory. */
  lemma StrideInjective(a: nat, c: nat)
    requires InDram(a) && InDram(c) && a % 4 == 0 && c % 4 == 0
    ensures RealAddr(a) % 4 == 0 && DRAM_BASE <= RealAddr(a) && RealAddr(a) + 4 <= DRAM_BASE + MEMORY
    ensures a < c ==> RealAddr(a) + 4 <= RealAddr(c)
    ensures RealAddr(a) == RealAddr(c) <==> a == c
  {
    hide RealAddr;
    var q, k := StrideParts(a);
    if a < c {
      StrideBelow(a, c);
    } else if c < a {
      StrideBelow(c, a);
    }
  }

  /** Data starts where memory does, and words follow each other but for the four bytes of error correction that come
      after every 32 of them. */
  lemma StrideSkips(addr: nat)
    requires InDram(addr) && InDram(addr + 4) && addr % 4 == 0
    ensures RealAddr(DRAM_BASE) == DRAM_BASE
    ensures RealAddr(addr + 4) == RealAddr(addr) + if (addr + 4 - DRAM_BASE) % 128 == 0 then 8 else 4
  {
    var q, k := StrideParts(addr);
    var p, j := StrideParts(addr + 4);
    assert if k == 31 then p == q + 1 && j == 0 else p == q && j == k + 1;
    assert k == 31 <==> (addr + 4 - DRAM_BASE) % 128 == 0;
    hide RealAddr;
  }

  /** The number in memory of the word at a logical address. */
  function WordIndex(addr: nat): nat
    requires InDram(addr) && addr % 4 == 0
  {
    (RealAddr(addr) - DRAM_BASE) / 4
  }

  lemma WordIndexInjective(a: nat, c: nat)
    requires InDram(a) && InDram(c) && a % 4 == 0 && c % 4 == 0
    ensures WordIndex(a) < MEMORY / 4 && (WordIndex(a) == WordIndex(c) <==> a == c)
  {
    hide RealAddr;
    StrideInjective(a, c);
    StrideInjective(c, a);
  }

  // ---------- 32-bit words and the operators on them, bit by bit ----------

  function Zeros(): seq<bool> {
    seq(32, _ => false)
  }

  type Word = w: seq<bool> | |w| == 32 witness Zeros()

  function And(a: Word, c: Word): Word {
    seq(32, i requires 0 <= i < 32 => a[i] && c[i])
  }

  function Or(a: Word, c: Word): Word {
    seq(32, i requires 0 <= i < 32 => a[i] || c[i])
  }

  function Not(a: Word): Word {
    seq(32, i requires 0 <= i < 32 => !a[i])
  }

  /** a << k */
  function ShiftLeft(a: Word, k: nat): Word {
    seq(32, i requires 0 <= i < 32 => i >= k && a[i - k])
  }

  /** a >> k */
  function ShiftRight(a: Word, k: nat): Word {
    seq(32, i requires 0 <= i < 32 => i + k < 32 && a[i + k])
  }

  /** The word whose k low bits are set: 1, 0xFF, 0xFFFF. */
  function Ones(k: nat): Word {
    seq(32, i => i < k)
  }

  /** The 8-bit or 16-bit value held by a word. */
  predicate Fits(a: Word, k: nat) {
    forall i :: k <= i < 32 ==> !a[i]
  }

  /** Bit i, below 32, of the address space from a word boundary on is bit i of that word. */
  lemma BitPlace(aligned: nat, i: nat)
    requires aligned % 4 == 0 && i < 32
    ensures (8 * aligned + i) / 8 == aligned + i / 8 && (8 * aligned + i) / 32 * 4 == aligned &&
      (8 * aligned + i) % 32 == i
    ensures InDram(aligned) ==> InDram(aligned + i / 8)
  {
  }

  /** The word and the place in it that the bit functions compute from a base address and a bit offset. */
  lemma BitAddress(base: nat, bit: nat)
    ensures var addr := base + bit / 8;
      && addr - addr % 4 == (base * 8 + bit) / 32 * 4 && addr == (base * 8 + bit) / 8
  {
  }

  class Dram {
    const mem: array<Word>  // word i is at address DRAM_BASE + 4 * i

    ghost predicate Shaped() {
      mem.Length * 4 == MEMORY
    }

    constructor ()
      ensures Shaped() && fresh(mem)
    {
      mem := new Word[MEMORY / 4](_ => Zeros());
    }

    /** The word of the flat address space at a multiple of four. */
    function WordAt(addr: nat): Word
      requires Shaped() && InDram(addr) && addr % 4 == 0
      reads mem
    {
      WordIndexInjective(addr, addr);
      mem[WordIndex(addr)]
    }

    /** Bit n of the flat address space: bit n % 8 of the byte at n / 8. */
    ghost predicate Bit(n: nat)
      requires Shaped() && InDram(n / 8)
      reads mem
    {
      WordAt(n / 32 * 4)[n % 32]
    }

    /** mem_copy of one word to a logical address. */
    method StoreWord(addr: nat, val: Word)
      requires Shaped() && InDram(addr) && addr % 4 == 0
      modifies mem
      ensures forall a: nat {:trigger WordAt(a)} ::
        InDram(a) && a % 4 == 0 ==> WordAt(a) == if a == addr then val else old(WordAt(a))
    {
      hide WordIndex;
      WordIndexInjective(addr, addr);
      mem[WordIndex(addr)] := val;
      forall a: nat {:trigger WordAt(a)} | InDram(a) && a % 4 == 0
        ensures WordAt(a) == if a == addr then val else old(WordAt(a))
      {
        WordIndexInjective(a, addr);
      }
    }

    /** Exactly the four named bytes change. */
    method WriteDram32(addr: nat, val: Word)
      requires Shaped() && InDram(addr) && addr % 4 == 0
      modifies mem
      ensures forall n: nat {:trigger Bit(n)} :: InDram(n / 8) ==>
        Bit(n) == if 8 * addr <= n < 8 * addr + 32 then val[n - 8 * addr] else old(Bit(n))
    {
      hide WordAt;
      StoreWord(addr, val);
    }

    /** Exactly the two named bytes change, or only the first of them when it is the last of its word. */
    method WriteDram16(addr: nat, val: Word)
      requires Shaped() && InDram(addr) && Fits(val, 16)
      modifies mem
      ensures forall n: nat {:trigger Bit(n)} :: InDram(n / 8) ==>
        Bit(n) == if 8 * addr <= n < 8 * addr + 16 && n / 32 == addr / 4 then val[n - 8 * addr] else old(Bit(n))
    {
      hide WordAt;
      var offset := addr % 4;
      var aligned := addr - offset;
      var was := WordAt(aligned);
      StoreWord(aligned, Or(And(was, Not(ShiftLeft(Ones(16), offset * 8))), ShiftLeft(val, offset * 8)));
    }

    /** Exactly the named byte changes. */
    method WriteDram8(addr: nat, val: Word)
      requires Shaped() && InDram(addr) && Fits(val, 8)
      modifies mem
      ensures forall n: nat {:trigger Bit(n)} :: InDram(n / 8) ==>
        Bit(n) == if 8 * addr <= n < 8 * addr + 8 then val[n - 8 * addr] else old(Bit(n))
    {
      hide WordAt;
      var offset := addr % 4;
      var aligned := addr - offset;
      var was := WordAt(aligned);
      StoreWord(aligned, Or(And(was, Not(ShiftLeft(Ones(8), offset * 8))), ShiftLeft(val, offset * 8)));
    }

    method ReadDram32(addr: nat) returns (val: Word)
      requires Shaped() && InDram(addr) && addr % 4 == 0
      ensures InDram(addr + 3) && forall i: nat {:trigger val[i]} :: i < 32 ==> val[i] == Bit(8 * addr + i)
    {
      hide WordAt;
      val := WordAt(addr);
      forall i: nat {:trigger val[i]} | i < 32
        ensures InDram((8 * addr + i) / 8) && val[i] == Bit(8 * addr + i)
      {
        BitPlace(addr, i);
      }
    }

    /** The two bytes at addr; past the end of its word a half-word reads as zero. */
    method ReadDram16(addr: nat) returns (val: Word)
      requires Shaped() && InDram(addr)
      ensures Fits(val, 16) && (addr % 4 < 3 ==> InDram(addr + 1))
      ensures forall i: nat {:trigger val[i]} :: i < 16 ==> val[i] == (addr % 4 * 8 + i < 32 && Bit(8 * addr + i))
    {
      hide WordAt;
      var offset := addr % 4;
      val := And(ShiftRight(WordAt(addr - offset), offset * 8), Ones(16));
      forall i: nat {:trigger val[i]} | i < 16 && offset * 8 + i < 32
        ensures InDram((8 * addr + i) / 8) && val[i] == Bit(8 * addr + i)
      {
        BitPlace(addr - offset, offset * 8 + i);
      }
    }

    method ReadDram8(addr: nat) returns (val: Word)
      requires Shaped() && InDram(addr)
      ensures Fits(val, 8) && forall i: nat {:trigger val[i]} :: i < 8 ==> val[i] == Bit(8 * addr + i)
    {
      hide WordAt;
      var offset := addr % 4;
      val := And(ShiftRight(WordAt(addr - offset), offset * 8), Ones(8));
      forall i: nat {:trigger val[i]} | i < 8
        ensures InDram((8 * addr + i) / 8) && val[i] == Bit(8 * addr + i)
      {
        BitPlace(addr - offset, offset * 8 + i);
      }
    }

    /** Exactly the named bit is set. */
    method SetBitDram(base: nat, bit: nat)
      requires Shaped() && InDram(base) && InDram(base + bit / 8)
      modifies mem
      ensures forall n: nat {:trigger Bit(n)} :: InDram(n / 8) ==> Bit(n) == (n == base * 8 + bit || old(Bit(n)))
    {
      hide WordAt;
      BitAddress(base, bit);
      var addr := base + bit / 8;
      var aligned := addr - addr % 4;
      var was := WordAt(aligned);
      StoreWord(aligned, Or(was, ShiftLeft(Ones(1), (base * 8 + bit) % 32)));
    }

    /** Exactly the named bit is cleared. */
    method ClrBitDram(base: nat, bit: nat)
      requires Shaped() && InDram(base) && InDram(base + bit / 8)
      modifies mem
      ensures forall n: nat {:trigger Bit(n)} :: InDram(n / 8) ==> Bit(n) == (n != base * 8 + bit && old(Bit(n)))
    {
      hide WordAt;
      BitAddress(base, bit);
      var addr := base + bit / 8;
      var aligned := addr - addr % 4;
      var was := WordAt(aligned);
      StoreWord(aligned, And(was, Not(ShiftLeft(Ones(1), (base * 8 + bit) % 32))));
    }

    /** The word returned is not zero exactly when the bit is set. */
    method TstBitDram(base: nat, bit: nat) returns (val: Word)
      requires Shaped() && InDram(base) && InDram(base + bit / 8)
      ensures val != Zeros() <==> Bit(base * 8 + bit)
    {
      hide WordAt;
      var addr := base + bit / 8;
      var aligned := addr - addr % 4;
      var mask := ShiftLeft(Ones(1), (base * 8 + bit) % 32);
      val := And(WordAt(aligned), mask);
      assert val[(base * 8 + bit) % 32] == Bit(base * 8 + bit);
      assert !Bit(base * 8 + bit) ==> val == Zeros();
    }
  }
}
