/**
 * The bus operations of the AXI backend (zynq/flink_axi.c).
 *
 * The mapped window is a byte memory seen from the window's base.  Every
 * access is guarded by flink_check_offset, which looks at the first byte
 * only: an access the guard refuses reads 0 and writes nothing, while an
 * access the guard admits touches the bytes at base + addr onwards, even
 * when they run past the end of the window.  Multi-byte accesses are
 * little-endian, as ioread16/ioread32 define them; a word is the number
 * its bytes spell in base 256.
 */
module AxiBus {
  import opened Flink

  /** struct flink_axi_bus_data: the window's size and the memory behind it; io(k) is the byte at base + k. */
  class BusData {
    const size: nat
    var io: nat -> u8

    constructor (size: nat, io: nat -> u8)
      ensures this.size == size && this.io == io
    {
      this.size := size;
      this.io := io;
    }
  }

  // ############ memory words ############

  /** The word whose bytes, least significant first, are `b`. */
  function Word16(b: seq<u8>): u16
    requires |b| == 2
  {
    b[0] as int + 0x100 * b[1] as int
  }

  function Word32(b: seq<u8>): u32
    requires |b| == 4
  {
    b[0] as int + 0x100 * b[1] as int + 0x1_0000 * b[2] as int + 0x100_0000 * b[3] as int
  }

  function Load16(io: nat -> u8, a: nat): u16
  {
    Word16([io(a), io(a + 1)])
  }

  function Load32(io: nat -> u8, a: nat): u32
  {
    Word32([io(a), io(a + 1), io(a + 2), io(a + 3)])
  }

  /** The bytes of a word, least significant first. */
  function Bytes16(v: u16): seq<u8>
  {
    [v % 0x100, v / 0x100]
  }

  function Bytes32(v: u32): seq<u8>
  {
    [v % 0x100, (v / 0x100) % 0x100, (v / 0x1_0000) % 0x100, v / 0x100_0000]
  }

  /** The memory after storing the bytes `b` from `a` on. */
  function StoreBytes(io: nat -> u8, a: nat, b: seq<u8>): nat -> u8
  {
    (k: nat) => if a <= k < a + |b| then b[k - a] else io(k)
  }

  function Store8(io: nat -> u8, a: nat, v: u8): nat -> u8 { StoreBytes(io, a, [v]) }
  function Store16(io: nat -> u8, a: nat, v: u16): nat -> u8 { StoreBytes(io, a, Bytes16(v)) }
  function Store32(io: nat -> u8, a: nat, v: u32): nat -> u8 { StoreBytes(io, a, Bytes32(v)) }

  /** Splitting a word into bytes and joining them again loses nothing, either way round. */
  lemma WordBytes16(v: u16, b: seq<u8>)
    requires |b| == 2
    ensures Word16(Bytes16(v)) == v
    ensures Bytes16(Word16(b)) == b
  {
  }

  lemma JoinSplit32(v: u32)
    ensures Word32(Bytes32(v)) == v
  {
    var q1 := v / 0x100;
    var q2 := q1 / 0x100;
    assert v == v % 0x100 + 0x100 * q1;
    assert q1 == q1 % 0x100 + 0x100 * q2;
    assert q2 == q2 % 0x100 + 0x100 * (q2 / 0x100);
    assert v / 0x1_0000 == q2;
    assert v / 0x100_0000 == q2 / 0x100;
  }

  lemma SplitJoin32(b: seq<u8>)
    requires |b| == 4
    ensures Bytes32(Word32(b)) == b
  {
    var v := Word32(b);
    assert v % 0x100 == b[0];
    assert v / 0x100 == b[1] as int + 0x100 * b[2] as int + 0x1_0000 * b[3] as int;
    assert v / 0x1_0000 == b[2] as int + 0x100 * b[3] as int;
    assert v / 0x100_0000 == b[3];
  }

  lemma WordBytes32(v: u32, b: seq<u8>)
    requires |b| == 4
    ensures Word32(Bytes32(v)) == v
    ensures Bytes32(Word32(b)) == b
  {
    JoinSplit32(v);
    SplitJoin32(b);
  }

  // ############ bus operations ############

  /** flink_check_offset: an access may start at `offset`. */
  predicate CheckOffset(d: BusData, offset: u32)
  {
    CheckSize(d.size, offset)
  }

  /** The comparison flink_check_offset makes: the offset lies below the window's size. */
  predicate CheckSize(size: nat, offset: u32)
  {
    offset < size
  }

  /** flink_axi_read8; `d` is the device's bus data, which may be NULL. */
  function Read8(d: BusData?, addr: u32): (r: u8)
    reads d
    ensures d != null && CheckOffset(d, addr) ==> r == d.io(addr)
    ensures d == null || !CheckOffset(d, addr) ==> r == 0
  {
    if d != null && CheckOffset(d, addr) then d.io(addr) else 0
  }

  /** flink_axi_read16: the two bytes from base + addr on, little-endian. */
  function Read16(d: BusData?, addr: u32): (r: u16)
    reads d
    ensures d != null && CheckOffset(d, addr) ==> Bytes16(r) == [d.io(addr), d.io(addr + 1)]
    ensures d == null || !CheckOffset(d, addr) ==> r == 0
  {
    if d != null && CheckOffset(d, addr) then
      WordBytes16(0, [d.io(addr), d.io(addr + 1)]);
      Load16(d.io, addr)
    else 0
  }

  /** flink_axi_read32: the four bytes from base + addr on, little-endian. */
  function Read32(d: BusData?, addr: u32): (r: u32)
    reads d
    ensures d != null && CheckOffset(d, addr) ==> Bytes32(r) == [d.io(addr), d.io(addr + 1), d.io(addr + 2), d.io(addr + 3)]
    ensures d == null || !CheckOffset(d, addr) ==> r == 0
  {
    if d != null && CheckOffset(d, addr) then
      SplitJoin32([d.io(addr), d.io(addr + 1), d.io(addr + 2), d.io(addr + 3)]);
      ReadWord32(d.size, d.io, addr)
    else 0
  }

  /** The word flink_axi_read32 yields on a window of `size` bytes whose memory is `io`. */
  function ReadWord32(size: nat, io: nat -> u8, addr: u32): u32
  {
    if CheckSize(size, addr) then Load32(io, addr) else 0
  }

  /**
   * flink_axi_read32 bound to one device's bus data, as the bus_ops table
   * hands it to the core: the words of the window as it is now.
   */
  function Read32Op(d: BusData): (u32 -> u32)
    reads d
  {
    var io := d.io;
    var size := d.size;
    (a: u32) => ReadWord32(size, io, a)
  }

  /** The bound operation reads what flink_axi_read32 reads. */
  lemma Read32OpAgrees(d: BusData, a: u32)
    ensures Read32Op(d)(a) == Read32(d, a)
  {
  }

  /** flink_axi_write8: stores when the guard admits the offset; returns 0 either way. */
  method Write8(d: BusData?, addr: u32, val: u8) returns (r: int)
    modifies d
    ensures r == 0
    ensures d != null ==> d.io == if CheckOffset(d, addr) then Store8(old(d.io), addr, val) else old(d.io)
  {
    if d != null && CheckOffset(d, addr) {
      d.io := Store8(d.io, addr, val);
    }
    r := 0;
  }

  /** flink_axi_write16 */
  method Write16(d: BusData?, addr: u32, val: u16) returns (r: int)
    modifies d
    ensures r == 0
    ensures d != null ==> d.io == if CheckOffset(d, addr) then Store16(old(d.io), addr, val) else old(d.io)
  {
    if d != null && CheckOffset(d, addr) {
      d.io := Store16(d.io, addr, val);
    }
    r := 0;
  }

  /** flink_axi_write32 */
  method Write32(d: BusData?, addr: u32, val: u32) returns (r: int)
    modifies d
    ensures r == 0
    ensures d != null ==> d.io == if CheckOffset(d, addr) then Store32(old(d.io), addr, val) else old(d.io)
  {
    if d != null && CheckOffset(d, addr) {
      d.io := Store32(d.io, addr, val);
    }
    r := 0;
  }

  /** flink_axi_address_space_size: the window size cut to 32 bits (the bus data is dereferenced unchecked). */
  function AddressSpaceSize(d: BusData): (s: u32)
    ensures d.size < TWO_TO_32 ==> s == d.size
    ensures d.size == TWO_TO_32 ==> s == 0
    ensures s == d.size % 0x1_0000_0000
  {
    d.size % 0x1_0000_0000
  }

  // ############ properties ############

  /**
   * A 32-bit word stored by iowrite32 is loaded back unchanged by ioread32,
   * and no byte outside base+addr .. base+addr+3 changes.  This holds at
   * every offset; the guard of the bus operations decides only whether the
   * store and the load happen at all.
   */
  lemma WriteThenRead32(d: BusData, addr: u32, v: u32)
    ensures Load32(Store32(d.io, addr, v), addr) == v
    ensures forall k: nat :: (k < addr || addr + 4 <= k) ==> Store32(d.io, addr, v)(k) == d.io(k)
  {
    WordBytes32(v, Bytes32(v));
  }

  /** The same for 16-bit accesses. */
  lemma WriteThenRead16(d: BusData, addr: u32, v: u16)
    ensures Load16(Store16(d.io, addr, v), addr) == v
    ensures forall k: nat :: (k < addr || addr + 2 <= k) ==> Store16(d.io, addr, v)(k) == d.io(k)
  {
    WordBytes16(v, Bytes16(v));
  }

  /** The same for 8-bit accesses. */
  lemma WriteThenRead8(d: BusData, addr: u32, v: u8)
    ensures Store8(d.io, addr, v)(addr) == v
    ensures forall k: nat :: k != addr ==> Store8(d.io, addr, v)(k) == d.io(k)
  {
  }

  /**
   * The guard looks at the start offset only: a 32-bit read at the last
   * byte of the window is admitted and its upper three bytes come from
   * outside the window.
   */
  lemma GuardChecksStartOnly(d: BusData)
    requires 0 < d.size <= TWO_TO_32
    ensures CheckOffset(d, d.size - 1)
    ensures Bytes32(Read32(d, d.size - 1))[1] == d.io(d.size)
  {
    var a: u32 := d.size - 1;
    var b := [d.io(a), d.io(a + 1), d.io(a + 2), d.io(a + 3)];
    assert Read32(d, a) == Word32(b);
    WordBytes32(0, b);
  }
}
