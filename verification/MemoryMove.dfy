/**
 `__aeabi_memmove` on a memory that can only be read and written a word at a time.

 Addresses are byte offsets into `memory`; a byte write reads the word around it, changes
 eight bits and writes the word back.
 */
module MemoryMove {
  // (value >> 8 * k) & 0xff on a little-endian word
  function Byte(value: bv32, k: nat): bv32
    requires k < 4
  {
    if k == 0 then value & 0xff
    else if k == 1 then (value >> 8) & 0xff
    else if k == 2 then (value >> 16) & 0xff
    else (value >> 24) & 0xff
  }

  function ByteAt(memory: seq<bv32>, address: nat): bv32
    requires address < 4 * |memory|
  {
    Byte(memory[address / 4], address % 4)
  }

  /** A word is its four bytes, the one at the lowest address in the lowest digits. */
  lemma WordIsBytes(value: bv32)
    ensures value == Byte(value, 0) | (Byte(value, 1) << 8) | (Byte(value, 2) << 16) | (Byte(value, 3) << 24)
  {
  }

  /** The same in memory */
  lemma MemoryIsBytes(memory: seq<bv32>, w: nat)
    requires w < |memory|
    ensures memory[w] ==
      ByteAt(memory, 4 * w) | (ByteAt(memory, 4 * w + 1) << 8) | (ByteAt(memory, 4 * w + 2) << 16) | (ByteAt(memory, 4 * w + 3) << 24)
    ensures forall a | 4 * w <= a < 4 * w + 4 :: ByteAt(memory, a) <= 0xff
  {
    hide Byte, ByteAt;
    WordIsBytes(memory[w]);
    forall k: nat | k < 4
      ensures ByteAt(memory, 4 * w + k) == Byte(memory[w], k) <= 0xff
    {
      ByteInWord(memory, w, k);
      ByteFits(memory[w], k);
    }
    assert ByteAt(memory, 4 * w + 0) == Byte(memory[w], 0);
    forall a | 4 * w <= a < 4 * w + 4
      ensures ByteAt(memory, a) <= 0xff
    {
      assert a == 4 * w + (a - 4 * w);
    }
  }

  lemma ByteInWord(memory: seq<bv32>, w: nat, k: nat)
    requires w < |memory| && k < 4
    ensures ByteAt(memory, 4 * w + k) == Byte(memory[w], k)
  {
    hide Byte;
  }

  lemma ByteFits(value: bv32, k: nat)
    requires k < 4
    ensures Byte(value, k) <= 0xff
  {
  }

  // What unaligned_write_u8 does to the word
  function Replace(value: bv32, k: nat, byte: bv32): bv32
    requires k < 4
  {
    if k == 0 then (value & 0xffff_ff00) | (byte << 0)
    else if k == 1 then (value & 0xffff_00ff) | (byte << 8)
    else if k == 2 then (value & 0xff00_ffff) | (byte << 16)
    else (value & 0x00ff_ffff) | (byte << 24)
  }

  lemma Replace0(value: bv32, byte: bv32)
    requires byte & 0xff == byte
    ensures var w := (value & 0xffff_ff00) | (byte << 0);
            && (w & 0xff) == byte
            && ((w >> 8) & 0xff) == ((value >> 8) & 0xff)
            && ((w >> 16) & 0xff) == ((value >> 16) & 0xff)
            && ((w >> 24) & 0xff) == ((value >> 24) & 0xff)
  {
  }

  lemma Replace1(value: bv32, byte: bv32)
    requires byte & 0xff == byte
    ensures var w := (value & 0xffff_00ff) | (byte << 8);
            && (w & 0xff) == (value & 0xff)
            && ((w >> 8) & 0xff) == byte
            && ((w >> 16) & 0xff) == ((value >> 16) & 0xff)
            && ((w >> 24) & 0xff) == ((value >> 24) & 0xff)
  {
  }

  lemma Replace2(value: bv32, byte: bv32)
    requires byte & 0xff == byte
    ensures var w := (value & 0xff00_ffff) | (byte << 16);
            && (w & 0xff) == (value & 0xff)
            && ((w >> 8) & 0xff) == ((value >> 8) & 0xff)
            && ((w >> 16) & 0xff) == byte
            && ((w >> 24) & 0xff) == ((value >> 24) & 0xff)
  {
  }

  lemma Replace3(value: bv32, byte: bv32)
    requires byte & 0xff == byte
    ensures var w := (value & 0x00ff_ffff) | (byte << 24);
            && (w & 0xff) == (value & 0xff)
            && ((w >> 8) & 0xff) == ((value >> 8) & 0xff)
            && ((w >> 16) & 0xff) == ((value >> 16) & 0xff)
            && ((w >> 24) & 0xff) == byte
  {
  }

  lemma Exact0(value: bv32, byte: bv32)
    requires byte & 0xff == byte
    ensures Byte(Replace(value, 0, byte), 0) == byte
    ensures Byte(Replace(value, 0, byte), 1) == Byte(value, 1)
    ensures Byte(Replace(value, 0, byte), 2) == Byte(value, 2)
    ensures Byte(Replace(value, 0, byte), 3) == Byte(value, 3)
  {
    Replace0(value, byte);
  }

  lemma Exact1(value: bv32, byte: bv32)
    requires byte & 0xff == byte
    ensures Byte(Replace(value, 1, byte), 0) == Byte(value, 0)
    ensures Byte(Replace(value, 1, byte), 1) == byte
    ensures Byte(Replace(value, 1, byte), 2) == Byte(value, 2)
    ensures Byte(Replace(value, 1, byte), 3) == Byte(value, 3)
  {
    Replace1(value, byte);
  }

  lemma Exact2(value: bv32, byte: bv32)
    requires byte & 0xff == byte
    ensures Byte(Replace(value, 2, byte), 0) == Byte(value, 0)
    ensures Byte(Replace(value, 2, byte), 1) == Byte(value, 1)
    ensures Byte(Replace(value, 2, byte), 2) == byte
    ensures Byte(Replace(value, 2, byte), 3) == Byte(value, 3)
  {
    Replace2(value, byte);
  }

  lemma Exact3(value: bv32, byte: bv32)
    requires byte & 0xff == byte
    ensures Byte(Replace(value, 3, byte), 0) == Byte(value, 0)
    ensures Byte(Replace(value, 3, byte), 1) == Byte(value, 1)
    ensures Byte(Replace(value, 3, byte), 2) == Byte(value, 2)
    ensures Byte(Replace(value, 3, byte), 3) == byte
  {
    Replace3(value, byte);
  }

  /** Byte k is replaced and the three others stay. */
  lemma ReplaceIsExact(value: bv32, k: nat, byte: bv32, j: nat)
    requires k < 4 && j < 4 && byte & 0xff == byte
    ensures Byte(Replace(value, k, byte), j) == if j == k then byte else Byte(value, j)
  {
    hide Byte, Replace;
    Exact0(value, byte);
    Exact1(value, byte);
    Exact2(value, byte);
    Exact3(value, byte);
  }

  lemma Word0(value: bv32, byte: bv32)
    requires byte & 0xff == byte
    ensures Replace(value, 0, byte) == byte | (Byte(value, 1) << 8) | (Byte(value, 2) << 16) | (Byte(value, 3) << 24)
  {
  }

  lemma Word1(value: bv32, byte: bv32)
    requires byte & 0xff == byte
    ensures Replace(value, 1, byte) == Byte(value, 0) | (byte << 8) | (Byte(value, 2) << 16) | (Byte(value, 3) << 24)
  {
  }

  lemma Word2(value: bv32, byte: bv32)
    requires byte & 0xff == byte
    ensures Replace(value, 2, byte) == Byte(value, 0) | (Byte(value, 1) << 8) | (byte << 16) | (Byte(value, 3) << 24)
  {
  }

  lemma Word3(value: bv32, byte: bv32)
    requires byte & 0xff == byte
    ensures Replace(value, 3, byte) == Byte(value, 0) | (Byte(value, 1) << 8) | (Byte(value, 2) << 16) | (byte << 24)
  {
  }

  /** The word after the write */
  lemma ReplacedWord(value: bv32, byte: bv32)
    requires byte & 0xff == byte
    ensures Replace(value, 0, byte) == byte | (Byte(value, 1) << 8) | (Byte(value, 2) << 16) | (Byte(value, 3) << 24)
    ensures Replace(value, 1, byte) == Byte(value, 0) | (byte << 8) | (Byte(value, 2) << 16) | (Byte(value, 3) << 24)
    ensures Replace(value, 2, byte) == Byte(value, 0) | (Byte(value, 1) << 8) | (byte << 16) | (Byte(value, 3) << 24)
    ensures Replace(value, 3, byte) == Byte(value, 0) | (Byte(value, 1) << 8) | (Byte(value, 2) << 16) | (byte << 24)
  {
    hide Byte, Replace;
    Word0(value, byte);
    Word1(value, byte);
    Word2(value, byte);
    Word3(value, byte);
  }

  lemma ByteIsByte(value: bv32, k: nat)
    requires k < 4
    ensures Byte(value, k) & 0xff == Byte(value, k)
  {
  }

  method ReadByte(memory: array<bv32>, source: nat) returns (value: bv32)
    requires source < 4 * memory.Length
    ensures value == ByteAt(memory[..], source) && value & 0xff == value
  {
    var word := memory[(source - source % 4) / 4];
    value := Byte(word, source % 4);
    ByteIsByte(word, source % 4);
  }

  method WriteByte(memory: array<bv32>, destination: nat, byte: bv32)
    requires destination < 4 * memory.Length && byte & 0xff == byte
    modifies memory
    ensures forall a | 0 <= a < 4 * memory.Length ::
              ByteAt(memory[..], a) == if a == destination then byte else old(ByteAt(memory[..], a))
  {
    var word := memory[(destination - destination % 4) / 4];
    memory[(destination - destination % 4) / 4] := Replace(word, destination % 4, byte);
    forall a | 0 <= a < 4 * memory.Length
      ensures ByteAt(memory[..], a) == if a == destination then byte else old(ByteAt(memory[..], a))
    {
      ReplaceIsExact(word, destination % 4, byte, a % 4);
    }
  }

  /** For every overlap and alignment, and no byte beside the destination changes. */
  method Move(memory: array<bv32>, destination: nat, source: nat, count: nat)
    requires destination + count <= 4 * memory.Length && source + count <= 4 * memory.Length
    requires 4 * memory.Length <= 0x1_0000_0000 && count < 0x8000_0000
    modifies memory
    ensures forall a | 0 <= a < 4 * memory.Length ::
              ByteAt(memory[..], a) ==
              if destination <= a < destination + count then old(ByteAt(memory[..], source + (a - destination)))
              else old(ByteAt(memory[..], a))
  {
    hide Byte, Replace, ByteAt;
    if destination <= source {
      for i := 0 to count
        invariant forall a | 0 <= a < 4 * memory.Length ::
          ByteAt(memory[..], a) ==
          if destination <= a < destination + i then old(ByteAt(memory[..], source + (a - destination)))
          else old(ByteAt(memory[..], a))
      {
        var byte := ReadByte(memory, source + i);
        WriteByte(memory, destination + i, byte);
      }
    } else {
      for i := 0 to count
        invariant forall a | 0 <= a < 4 * memory.Length ::
          ByteAt(memory[..], a) ==
          if destination + count - i <= a < destination + count then old(ByteAt(memory[..], source + (a - destination)))
          else old(ByteAt(memory[..], a))
      {
        var byte := ReadByte(memory, source + count - i - 1);
        WriteByte(memory, destination + count - i - 1, byte);
      }
    }
  }
}
