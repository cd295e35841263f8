/**
 * What one open device node does (flink_core.c: flink_read, flink_write,
 * flink_ioctl, flink_llseek and flink_select_subdevice).
 *
 * An open file knows its device and, once one is selected, a subdevice;
 * reads and writes move one 32-bit word between user space and the bus at
 * the subdevice's base address plus the file offset.  Whether a copy to or
 * from user space succeeds is a parameter.
 */
module Session {
  import opened Flink
  import AxiBus
  import opened Devices

  /**
   * struct file together with its struct flink_private_data: the device the
   * node was opened on (NULL when no device owns the node), the selected
   * subdevice and f_pos.
   */
  class OpenFile {
    const fdev: Device?
    var currentSubdevice: Option<Subdevice>
    var pos: i64

    /** A subdevice is only ever selected from a device. */
    predicate Valid()
      reads this
    {
      currentSubdevice.Some? ==> fdev != null
    }

    /** flink_open: zeroed private data naming the device found for the node. */
    constructor Open(fdev: Device?)
      ensures this.fdev == fdev && currentSubdevice.None? && pos == 0 && Valid()
    {
      this.fdev := fdev;
      currentSubdevice := None;
      pos := 0;
    }
  }

  /** The bus data of the file's device, which the device's bus operations read and write. */
  function BusOf(f: OpenFile): AxiBus.BusData?
    reads f.fdev
  {
    if f.fdev == null then null else f.fdev.busData
  }

  // ############ selecting a subdevice ############

  /**
   * flink_select_subdevice: with a device, the subdevice found under `id`
   * becomes the selection (none when the id is unknown) and 0 is returned;
   * without a device -1.  The exclusive flag is ignored.
   */
  method SelectSubdevice(f: OpenFile, id: u8, excl: bool) returns (r: int)
    requires f.Valid()
    modifies f
    ensures f.Valid() && f.pos == old(f.pos)
    ensures f.fdev == null ==> r == UNKOWN_ERROR && f.currentSubdevice == old(f.currentSubdevice)
    ensures f.fdev != null ==> r == 0 && f.currentSubdevice == FindSubdevice(f.fdev.subdevices, id)
  {
    if f.fdev != null {
      f.currentSubdevice := GetSubdeviceById(f.fdev, id);
      return 0;
    }
    return UNKOWN_ERROR;
  }

  // ############ read and write ############

  /** (u32)*offset: the file position cut to its low 32 bits. */
  function Trunc32(x: i64): (r: u32)
    ensures 0 <= x < TWO_TO_32 ==> r == x
    ensures -TWO_TO_32 <= x < 0 ==> r == x + TWO_TO_32
    ensures (r - x) % TWO_TO_32 == 0
  {
    x % 0x1_0000_0000
  }

  /**
   * The bus address a 4-byte transfer at `pos` reaches in subdevice `s`:
   * base plus offset, wrapping in 32 bits, and None when the offset lies
   * beyond mem_size.
   */
  function TransferAddress(s: Subdevice, pos: i64): (a: Option<u32>)
    ensures a.Some? <==> Trunc32(pos) <= s.memSize
    ensures a.Some? ==> a.value == (s.baseAddr + Trunc32(pos)) % 0x1_0000_0000
  {
    var offset := Trunc32(pos);
    if offset > s.memSize then None else Some(Add32(s.baseAddr, offset))
  }

  /** The bus is reached exactly when a subdevice is selected, the size is 4 and the offset is admitted. */
  predicate Transfers(sub: Option<Subdevice>, size: nat, pos: i64)
  {
    sub.Some? && size == 4 && TransferAddress(sub.value, pos).Some?
  }

  /**
   * flink_read: with a selected subdevice, a size of 4 and an admitted
   * offset, the word at the transfer address is read from the bus and
   * copied out; 4 is returned when the copy succeeds.  Every other case,
   * including sizes 1 and 2, returns 0.  The file position is not moved.
   */
  method Read(f: OpenFile, size: nat, copyOk: bool) returns (r: int, data: u32)
    requires f.Valid()
    ensures r == 4 <==> Transfers(f.currentSubdevice, size, f.pos) && copyOk
    ensures r != 4 ==> r == 0
    ensures Transfers(f.currentSubdevice, size, f.pos) ==>
      data == AxiBus.Read32(BusOf(f), TransferAddress(f.currentSubdevice.value, f.pos).value)
  {
    data := 0;
    if f.currentSubdevice.Some? {
      var subdev := f.currentSubdevice.value;
      if size == 1 || size == 2 {
        return 0, data;
      } else if size == 4 {
        var roffset := Trunc32(f.pos);
        if roffset > subdev.memSize {
          return 0, data;
        }
        data := AxiBus.Read32(f.fdev.busData, Add32(subdev.baseAddr, roffset));
        if !copyOk {
          return 0, data;
        }
        return 4, data;
      }
      return 0, data;
    }
    return 0, data;
  }

  /**
   * flink_write: with a selected subdevice, a size of 4, an admitted offset
   * and a successful copy from user space, `wdata` is written to the bus at
   * the transfer address and 4 is returned.  Every other case returns 0 and
   * leaves the bus alone.
   */
  method Write(f: OpenFile, size: nat, copyOk: bool, wdata: u32) returns (r: int)
    requires f.Valid()
    modifies BusOf(f)
    ensures r == 4 <==> Transfers(f.currentSubdevice, size, f.pos) && copyOk
    ensures r != 4 ==> r == 0
    ensures BusOf(f) != null ==> (BusOf(f).io ==
      if r == 4 then
        var a := TransferAddress(f.currentSubdevice.value, f.pos).value;
        if AxiBus.CheckOffset(BusOf(f), a) then AxiBus.Store32(old(BusOf(f).io), a, wdata) else old(BusOf(f).io)
      else old(BusOf(f).io))
  {
    if f.currentSubdevice.Some? {
      var subdev := f.currentSubdevice.value;
      if size == 1 || size == 2 {
        return 0;
      } else if size == 4 {
        var woffset := Trunc32(f.pos);
        if woffset > subdev.memSize {
          return 0;
        }
        if !copyOk {
          return 0;
        }
        var _ := AxiBus.Write32(f.fdev.busData, Add32(subdev.baseAddr, woffset), wdata);
        return 4;
      }
      return 0;
    }
    return 0;
  }

  // ############ single bits ############

  /** 1 << bit as a 32-bit word. */
  function Mask(bit: bv32): bv32
    requires bit < 32
  {
    1 << bit
  }

  /** Bit `bit` of the word, counted from the least significant. */
  predicate BitOf(x: bv32, bit: bv32)
    requires bit < 32
  {
    (x >> bit) & 1 == 1
  }

  /** temp | (1 << bit) when `value` is not 0, temp & ~(1 << bit) otherwise. */
  function SetBit(x: bv32, bit: bv32, value: u8): bv32
    requires bit < 32
  {
    if value != 0 then x | Mask(bit) else x & !Mask(bit)
  }

  /** The test READ_SINGLE_BIT makes, temp & (1 << bit) != 0, reads bit `bit`. */
  lemma MaskTests(x: bv32, bit: bv32)
    requires bit < 32
    ensures (x & Mask(bit) != 0) <==> BitOf(x, bit)
  {
  }

  /** Setting or clearing a bit makes it read as `value != 0`. */
  lemma SetBitReads(x: bv32, bit: bv32, value: u8)
    requires bit < 32
    ensures BitOf(SetBit(x, bit, value), bit) <==> value != 0
  {
  }

  /** Setting or clearing a bit leaves bit j != bit as it was. */
  lemma SetBitKeeps(x: bv32, bit: bv32, value: u8, j: bv32)
    requires bit < 32 && j < 32 && j != bit
    ensures BitOf(SetBit(x, bit, value), j) <==> BitOf(x, j)
  {
    MaskKeepsOthers(x, bit, j);
  }

  /** Or-ing or and-not-ing the mask of another bit leaves bit j alone. */
  lemma MaskKeepsOthers(x: bv32, bit: bv32, j: bv32)
    requires bit < 32 && j < 32 && j != bit
    ensures BitOf(x | Mask(bit), j) == BitOf(x, j)
    ensures BitOf(x & !Mask(bit), j) == BitOf(x, j)
  {
  }

  /** A 32-bit word taken to a number and back is unchanged. */
  lemma WordRoundTrip(x: bv32)
    ensures (x as int) as bv32 == x
  {
  }

  /**
   * Setting or clearing a bit makes it read as `value != 0` and leaves
   * every other bit of the word as it was.
   */
  lemma SetBitEffect(x: bv32, bit: bv32, value: u8)
    requires bit < 32
    ensures BitOf(SetBit(x, bit, value), bit) <==> value != 0
    ensures forall j: bv32 :: j < 32 && j != bit ==> (BitOf(SetBit(x, bit, value), j) <==> BitOf(x, j))
  {
    SetBitReads(x, bit, value);
    forall j: bv32 | j < 32 && j != bit
      ensures BitOf(SetBit(x, bit, value), j) <==> BitOf(x, j)
    {
      SetBitKeeps(x, bit, value, j);
    }
  }

  /** The ioctl commands this driver answers, with the arguments copied in from user space. */
  datatype Command =
    | SelectSubdeviceCmd(id: u8)
    | SelectSubdeviceExclCmd(id: u8)
    | ReadNofSubdevices
    | ReadSubdeviceInfo(id: u8)
    | ReadSingleBit(offset: u32, bit: bv32)
    | WriteSingleBit(offset: u32, bit: bv32, value: u8)
    | Unknown

  /** What an ioctl copies out to user space. */
  datatype Reply = NoReply | NofSubdevices(n: u8) | SubdeviceInfo(info: Subdevice) | BitValue(value: u8)

  /** The value READ_SINGLE_BIT reports, (temp & (1 << bit)) != 0: 1 exactly when bit `bit` of the word is set. */
  function BitValueOf(w: u32, bit: bv32): (v: u8)
    requires bit < 32
    ensures v == 1 <==> BitOf(w as bv32, bit)
    ensures v == 0 <==> !BitOf(w as bv32, bit)
  {
    MaskTests(w as bv32, bit);
    if (w as bv32) & Mask(bit) != 0 then 1 else 0
  }

  /**
   * The window after WRITE_SINGLE_BIT at bus address `a`: the word read
   * there, with bit `bit` set or cleared, written back through the guard.
   */
  function BitWritten(d: AxiBus.BusData, a: u32, bit: bv32, value: u8): nat -> u8
    requires bit < 32
    reads d
  {
    var w := SetBit(AxiBus.ReadWord32(d.size, d.io, a) as bv32, bit, value) as int;
    if AxiBus.CheckOffset(d, a) then AxiBus.Store32(d.io, a, w) else d.io
  }

  /** The bus address of a bit ioctl: the selected subdevice's base plus the offset, wrapping in 32 bits. */
  function BitAddress(s: Subdevice, offset: u32): u32
  {
    Add32(s.baseAddr, offset)
  }

  /** READ_NOF_SUBDEVICES: the device's subdevice count is copied out; -EINVAL when the copy fails. */
  method IoctlReadNofSubdevices(f: OpenFile, copyOut: bool) returns (r: int, n: u8)
    requires f.fdev != null
    ensures n == f.fdev.nofSubdevices
    ensures r == 0 <==> copyOut
    ensures r != 0 ==> r == -EINVAL
  {
    n := f.fdev.nofSubdevices;
    if !copyOut {
      return -EINVAL, n;
    }
    return 0, n;
  }

  /**
   * READ_SUBDEVICE_INFO: the descriptor of the subdevice with the id copied
   * in is copied out.  A failed copy, an id at or beyond the subdevice count
   * and an id the lookup does not find return -EINVAL.
   */
  method IoctlReadSubdeviceInfo(f: OpenFile, id: u8, copyIn: bool, copyOut: bool) returns (r: int, info: Option<Subdevice>)
    requires copyIn ==> f.fdev != null
    ensures r == 0 <==> copyIn && id < f.fdev.nofSubdevices && FindSubdevice(f.fdev.subdevices, id).Some? && copyOut
    ensures r != 0 ==> r == -EINVAL
    ensures r == 0 ==> info.Some? && info.value.id == id && info.value in f.fdev.subdevices
    ensures r == 0 ==> info == FindSubdevice(f.fdev.subdevices, id)
  {
    info := None;
    if !copyIn {
      return -EINVAL, info;
    }
    if id >= f.fdev.nofSubdevices {
      return -EINVAL, info;
    }
    var src := GetSubdeviceById(f.fdev, id);
    if src.None? {
      return -EINVAL, info;
    }
    info := src;
    if !copyOut {
      return -EINVAL, info;
    }
    return 0, info;
  }

  /**
   * READ_SINGLE_BIT: the word at the selected subdevice's base plus the
   * offset is read and bit `bit` of it reported as 1 or 0; -EINVAL when a
   * copy fails.  The selected subdevice and the device are dereferenced
   * unchecked.
   */
  method IoctlReadSingleBit(f: OpenFile, offset: u32, bit: bv32, copyIn: bool, copyOut: bool) returns (r: int, value: u8)
    requires copyIn ==> f.fdev != null && f.currentSubdevice.Some? && bit < 32
    ensures r == 0 <==> copyIn && copyOut
    ensures r != 0 ==> r == -EINVAL
    ensures copyIn ==>
      var w := AxiBus.Read32(BusOf(f), BitAddress(f.currentSubdevice.value, offset));
      (value == 1 <==> BitOf(w as bv32, bit)) && (value == 0 <==> !BitOf(w as bv32, bit))
  {
    value := 0;
    if !copyIn {
      return -EINVAL, value;
    }
    var temp := AxiBus.Read32(BusOf(f), BitAddress(f.currentSubdevice.value, offset));
    value := BitValueOf(temp, bit);
    if !copyOut {
      return -EINVAL, value;
    }
    return 0, value;
  }

  /**
   * WRITE_SINGLE_BIT: the word at the selected subdevice's base plus the
   * offset is read, bit `bit` set (value != 0) or cleared, and the word
   * written back; 0 is returned, -EINVAL when the copy in fails.
   */
  method IoctlWriteSingleBit(f: OpenFile, offset: u32, bit: bv32, value: u8, copyIn: bool) returns (r: int)
    requires copyIn ==> f.fdev != null && f.currentSubdevice.Some? && bit < 32
    modifies BusOf(f)
    ensures r == (if copyIn then 0 else -EINVAL)
    ensures BusOf(f) != null ==>
      (BusOf(f).io ==
         if copyIn then old(BitWritten(BusOf(f), BitAddress(f.currentSubdevice.value, offset), bit, value))
         else old(BusOf(f).io))
  {
    if !copyIn {
      return -EINVAL;
    }
    var a := BitAddress(f.currentSubdevice.value, offset);
    var temp := AxiBus.Read32(f.fdev.busData, a);
    temp := SetBit(temp as bv32, bit, value) as int;
    var _ := AxiBus.Write32(f.fdev.busData, a, temp);
    return 0;
  }

  /** What the source dereferences without checking once the argument is copied in. */
  predicate IoctlDefined(f: OpenFile, cmd: Command, copyIn: bool)
    reads f
  {
    && (cmd.ReadNofSubdevices? ==> f.fdev != null)
    && (cmd.ReadSubdeviceInfo? ==> copyIn ==> f.fdev != null)
    && (cmd.ReadSingleBit? || cmd.WriteSingleBit? ==>
          copyIn ==> f.fdev != null && f.currentSubdevice.Some? && cmd.bit < 32)
  }

  /**
   * flink_ioctl: dispatches on the command.  `copyIn` says whether the
   * argument could be copied from user space (for the commands that take
   * one) and `copyOut` whether the reply could be copied back.  A failed
   * copy in of a selection and an unknown command return -EINVAL; each
   * other command returns what its handler returns.  Only the selection
   * commands change the selection, and only WRITE_SINGLE_BIT the bus.
   */
  method Ioctl(f: OpenFile, cmd: Command, copyIn: bool, copyOut: bool) returns (r: int, reply: Reply)
    requires f.Valid() && IoctlDefined(f, cmd, copyIn)
    modifies f, BusOf(f)
    ensures f.Valid() && f.pos == old(f.pos)
    ensures !(cmd.SelectSubdeviceCmd? || cmd.SelectSubdeviceExclCmd?) ==> f.currentSubdevice == old(f.currentSubdevice)
    ensures !cmd.WriteSingleBit? && BusOf(f) != null ==> BusOf(f).io == old(BusOf(f).io)
    ensures cmd.Unknown? ==> r == -EINVAL
    ensures cmd.SelectSubdeviceCmd? || cmd.SelectSubdeviceExclCmd? ==>
      if !copyIn then r == -EINVAL && f.currentSubdevice == old(f.currentSubdevice)
      else if f.fdev == null then r == UNKOWN_ERROR && f.currentSubdevice == old(f.currentSubdevice)
      else r == 0 && f.currentSubdevice == FindSubdevice(f.fdev.subdevices, cmd.id)
    ensures cmd.ReadNofSubdevices? ==>
      reply == NofSubdevices(f.fdev.nofSubdevices) && r == (if copyOut then 0 else -EINVAL)
    ensures cmd.ReadSubdeviceInfo? ==>
      if !copyIn then r == -EINVAL
      else
        var found := FindSubdevice(f.fdev.subdevices, cmd.id);
        && (r == 0 <==> cmd.id < f.fdev.nofSubdevices && found.Some? && copyOut)
        && (r != 0 ==> r == -EINVAL)
        && (r == 0 ==> reply == SubdeviceInfo(found.value))
    ensures cmd.ReadSingleBit? ==>
      && (r == 0 <==> copyIn && copyOut)
      && (r != 0 ==> r == -EINVAL)
      && (copyIn ==>
            reply == BitValue(BitValueOf(AxiBus.Read32(BusOf(f), BitAddress(f.currentSubdevice.value, cmd.offset)), cmd.bit)))
    ensures cmd.WriteSingleBit? ==>
      && r == (if copyIn then 0 else -EINVAL)
      && (BusOf(f) != null ==>
            (BusOf(f).io ==
               if copyIn then old(BitWritten(BusOf(f), BitAddress(f.currentSubdevice.value, cmd.offset), cmd.bit, cmd.value))
               else old(BusOf(f).io)))
    ensures cmd.SelectSubdeviceCmd? || cmd.SelectSubdeviceExclCmd? || cmd.WriteSingleBit? || cmd.Unknown? ==> reply == NoReply
  {
    reply := NoReply;
    match cmd {
      case SelectSubdeviceCmd(id) =>
        if !copyIn {
          return -EINVAL, reply;
        }
        r := SelectSubdevice(f, id, false);
      case SelectSubdeviceExclCmd(id) =>
        if !copyIn {
          return -EINVAL, reply;
        }
        r := SelectSubdevice(f, id, true);
      case ReadNofSubdevices =>
        var n;
        r, n := IoctlReadNofSubdevices(f, copyOut);
        reply := NofSubdevices(n);
      case ReadSubdeviceInfo(id) =>
        var info;
        r, info := IoctlReadSubdeviceInfo(f, id, copyIn, copyOut);
        if info.Some? {
          reply := SubdeviceInfo(info.value);
        }
      case ReadSingleBit(offset, bit) =>
        var value;
        r, value := IoctlReadSingleBit(f, offset, bit, copyIn, copyOut);
        reply := BitValue(value);
      case WriteSingleBit(offset, bit, value) =>
        r := IoctlWriteSingleBit(f, offset, bit, value, copyIn);
      case Unknown =>
        return -EINVAL, reply;
    }
  }

  // ############ seeking ############

  /** A loff_t sum: the exact sum reduced to a signed 64-bit value. */
  function Wrap64(x: int): (r: i64)
    ensures (r - x) % TWO_TO_64 == 0
    ensures -0x8000_0000_0000_0000 <= x < 0x8000_0000_0000_0000 ==> r == x
  {
    var m := x % TWO_TO_64;
    if m < 0x8000_0000_0000_0000 then m else m - TWO_TO_64
  }

  /** The position flink_llseek computes for SEEK_SET (0), SEEK_CUR (1) and SEEK_END (2); None for any other whence. */
  function NewPosition(whence: int, off: i64, pos: i64, memSize: u32): Option<i64>
  {
    if whence == 0 then Some(off)
    else if whence == 1 then Some(Wrap64(pos + off))
    else if whence == 2 then Some(Wrap64(memSize + off))
    else None
  }

  /**
   * flink_llseek: without a selected subdevice, for an unknown whence and
   * for a negative new position -EINVAL, with the position unchanged;
   * otherwise the new position is stored and returned.
   */
  method Llseek(f: OpenFile, off: i64, whence: int) returns (r: i64)
    requires f.Valid()
    modifies f
    ensures f.Valid() && f.currentSubdevice == old(f.currentSubdevice)
    ensures var p := if f.currentSubdevice.None? then None else NewPosition(whence, off, old(f.pos), f.currentSubdevice.value.memSize);
      if p.None? || p.value < 0 then r == -EINVAL && f.pos == old(f.pos)
      else r == p.value && f.pos == p.value
  {
    if f.currentSubdevice.Some? {
      var newpos: i64;
      if whence == 0 {
        newpos := off;
      } else if whence == 1 {
        newpos := Wrap64(f.pos + off);
      } else if whence == 2 {
        newpos := Wrap64(f.currentSubdevice.value.memSize + off);
      } else {
        return -EINVAL;
      }
      if newpos < 0 {
        return -EINVAL;
      }
      f.pos := newpos;
      return newpos;
    }
    return -EINVAL;
  }

  // ############ properties ############

  /**
   * Seeking from the start, from the current position or from the end
   * lands where it says when no overflow occurs, and a position below 0 is
   * never reached by a seek that succeeds.
   */
  lemma SeekTargets(off: i64, pos: i64, memSize: u32)
    ensures NewPosition(0, off, pos, memSize) == Some(off)
    ensures -0x8000_0000_0000_0000 <= pos + off < 0x8000_0000_0000_0000 ==>
      NewPosition(1, off, pos, memSize) == Some(pos + off)
    ensures off < 0x8000_0000_0000_0000 - memSize ==> NewPosition(2, off, pos, memSize) == Some(memSize + off)
    ensures forall w: int :: w < 0 || w > 2 ==> NewPosition(w, off, pos, memSize).None?
  {
  }

  /**
   * The offset guard of read and write admits the offset equal to mem_size,
   * so the word just past the subdevice's memory is reachable.
   */
  lemma EndOffsetAdmitted(s: Subdevice)
    ensures TransferAddress(s, s.memSize) == Some(Add32(s.baseAddr, s.memSize))
    ensures TransferAddress(s, s.memSize as int + 1).None? <==> s.memSize + 1 < TWO_TO_32
  {
  }

  /**
   * WRITE_SINGLE_BIT followed by READ_SINGLE_BIT at the same bus address:
   * where the guard admits the address, the word reads back as written and
   * the bit as the value written; where it refuses the address, nothing is
   * written and the read yields 0.  `ReadWord32(d.size, io, a)` is what
   * flink_axi_read32 returns once the window holds `io`.
   */
  lemma WriteBitThenReadBit(d: AxiBus.BusData, a: u32, bit: bv32, value: u8)
    requires bit < 32
    ensures var back := AxiBus.ReadWord32(d.size, BitWritten(d, a, bit, value), a);
      && (AxiBus.CheckOffset(d, a) ==>
            && back == SetBit(AxiBus.ReadWord32(d.size, d.io, a) as bv32, bit, value) as int
            && BitValueOf(back, bit) == if value != 0 then 1 else 0)
      && (!AxiBus.CheckOffset(d, a) ==> back == 0 && BitValueOf(back, bit) == 0)
  {
    if AxiBus.CheckOffset(d, a) {
      StoredBitWord(d, a, bit, value);
      SetBitValue(AxiBus.ReadWord32(d.size, d.io, a) as bv32, bit, value);
    } else {
      assert AxiBus.ReadWord32(d.size, BitWritten(d, a, bit, value), a) == 0;
      assert !BitOf(0, bit);
    }
  }

  /** The bit READ_SINGLE_BIT reports from a word with that bit set or cleared is the value written. */
  lemma SetBitValue(x: bv32, bit: bv32, value: u8)
    requires bit < 32
    ensures BitValueOf(SetBit(x, bit, value) as int, bit) == if value != 0 then 1 else 0
  {
    WordRoundTrip(SetBit(x, bit, value));
    SetBitReads(x, bit, value);
  }

  /** Where the guard admits the address, the word written by WRITE_SINGLE_BIT is the word then read there. */
  lemma StoredBitWord(d: AxiBus.BusData, a: u32, bit: bv32, value: u8)
    requires bit < 32 && AxiBus.CheckOffset(d, a)
    ensures AxiBus.ReadWord32(d.size, BitWritten(d, a, bit, value), a)
      == SetBit(AxiBus.ReadWord32(d.size, d.io, a) as bv32, bit, value) as int
  {
    var w := SetBit(AxiBus.ReadWord32(d.size, d.io, a) as bv32, bit, value) as int;
    StoredWordReadBack(d.io, a, w);
  }

  /** The word stored at an address is the word loaded from it. */
  lemma StoredWordReadBack(io: nat -> u8, a: u32, v: u32)
    ensures AxiBus.Load32(AxiBus.Store32(io, a, v), a) == v
  {
    AxiBus.JoinSplit32(v);
  }
}
