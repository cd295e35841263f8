/**
 * Constants, records and packed header words of the flink core (flink.h).
 *
 * C's fixed-width unsigned integers are bounded integers (u8, u16, u32,
 * i64) whose wrap-around is written out wherever the C code can overflow.
 * On unsigned values a right shift by k is a division by 2^k and a mask
 * with 2^k - 1 a remainder, which is how the header fields are cut out.
 */
module Flink {

  /** u8 and u32 used as numbers (ids, counters, addresses, sizes). */
  type u8 = x: int | 0 <= x < 0x100
  type u16 = x: int | 0 <= x < 0x1_0000
  type u32 = x: int | 0 <= x < 0x1_0000_0000
  /** loff_t: a signed 64-bit file position. */
  type i64 = x: int | -0x8000_0000_0000_0000 <= x < 0x8000_0000_0000_0000

  const TWO_TO_8: int := 0x100
  const TWO_TO_32: int := 0x1_0000_0000
  const TWO_TO_64: int := 0x1_0000_0000_0000_0000

  /** u32 addition, wrapping modulo 2^32. */
  function Add32(a: u32, b: u32): u32
  {
    if a + b < TWO_TO_32 then a + b else a + b - TWO_TO_32
  }

  /** u32 subtraction, wrapping modulo 2^32. */
  function Sub32(a: u32, b: u32): u32
  {
    if b <= a then a - b else a - b + TWO_TO_32
  }

  /** The u8 counter increment `n++`, wrapping modulo 2^8. */
  function Inc8(a: u8): u8
  {
    if a < 0xFF then a + 1 else 0
  }

  /** The three wrapping operations are the C ones: the exact result reduced modulo 2^32 or 2^8. */
  lemma WrapArithmetic(a: u32, b: u32, c: u8)
    ensures Add32(a, b) == (a + b) % 0x1_0000_0000
    ensures Sub32(a, b) == (a - b) % 0x1_0000_0000
    ensures Inc8(c) == (c + 1) % 0x100
  {
  }

  /** A u32 truncated to u8, as an assignment to a u8 field does it. */
  function Trunc8(a: u32): u8 { a % 0x100 }

  /** A pointer that may be NULL. */
  datatype Option<+T> = None | Some(value: T)

  // ############ error numbers ############
  const UNKOWN_ERROR: int := -1
  const EINVAL: int := 22

  // ############ constants ############
  const MAX_NOF_SUBDEVICES: nat := 256
  const MAX_ADDRESS_SPACE: nat := 0x10000

  const MAIN_HEADER_SIZE: u32 := 16
  const SUB_HEADER_SIZE: u32 := 16
  const SUBDEV_FUNCTION_OFFSET: u32 := 0x0000
  const SUBDEV_SIZE_OFFSET: u32 := 0x0004
  const SUBDEV_NOFCHANNELS_OFFSET: u32 := 0x0008
  const SUBDEV_UNIQUE_ID_OFFSET: u32 := 0x000C
  const SUBDEV_STATUS_OFFSET: u32 := 0x0010
  const SUBDEV_CONFIG_OFFSET: u32 := 0x0014

  const INFO_FUNCTION_ID: u16 := 0x00

  // ############ the function word ############

  /** The function of a subdevice: function id, sub-function id and version. */
  datatype FunctionType = FunctionType(functionId: u16, subFunctionId: u8, functionVersion: u8)

  /** The header's function word: function id in bits 31-16, sub-function in bits 15-8, version in bits 7-0. */
  function PackFunction(f: FunctionType): u32
  {
    f.functionId * 0x1_0000 + f.subFunctionId * 0x100 + f.functionVersion
  }

  /** The three fields the scanner cuts out of a function word: w >> 16, (w >> 8) & 0xFF and w & 0xFF. */
  function UnpackFunction(w: u32): FunctionType
  {
    FunctionType(w / 0x1_0000, (w / 0x100) % 0x100, w % 0x100)
  }

  /** No field is lost or altered between a function type and its word, either way round. */
  lemma UnpackPack(f: FunctionType, w: u32)
    ensures UnpackFunction(PackFunction(f)) == f
    ensures PackFunction(UnpackFunction(w)) == w
  {
  }

  // ############ subdevice ############

  /**
   * struct flink_subdevice from `id` to `unique_id`: the descriptor that
   * READ_SUBDEVICE_INFO copies to user space.  The list links and the parent
   * pointer are not fields: a subdevice belongs to the device whose sequence
   * holds it.
   */
  datatype Subdevice = Subdevice(
    id: u8,
    functionId: u16,
    subFunctionId: u8,
    functionVersion: u8,
    baseAddr: u32,
    memSize: u32,
    nofChannels: u32,
    uniqueId: u32)
  {
    function Function(): FunctionType { FunctionType(functionId, subFunctionId, functionVersion) }
  }

  /** flink_subdevice_init: every field zero. */
  const BLANK_SUBDEVICE: Subdevice := Subdevice(0, 0, 0, 0, 0, 0, 0, 0)

  // ############ interrupt bookkeeping ############

  /** struct task_struct*: the process a signal is sent to. */
  type ProcessId = nat

  /**
   * struct flink_irq_data without its locks: one requested interrupt line,
   * the processes that asked for it and the two numbers precomputed for the
   * interrupt handler.
   */
  datatype IrqData = IrqData(
    irqNr: u32,
    processes: seq<ProcessId>,
    signalCount: u32,
    signalNrWithOffset: u32,
    irqNrWithOffset: u32)

  /** The bookkeeping the record's fields promise for a device with the given offsets. */
  predicate IrqDataValid(l: IrqData, irqOffset: u32, signalOffset: u32)
  {
    && l.signalCount == |l.processes|
    && l.irqNrWithOffset == Add32(l.irqNr, irqOffset)
    && l.signalNrWithOffset == Add32(l.irqNr, signalOffset)
  }

  /** A line is registered while its signal count is not zero. */
  predicate IrqRegistered(l: IrqData)
  {
    l.signalCount != 0
  }

  /** In a consistent record, "registered" means some process is subscribed. */
  lemma RegisteredIffSubscribed(l: IrqData, irqOffset: u32, signalOffset: u32)
    requires IrqDataValid(l, irqOffset, signalOffset)
    ensures IrqRegistered(l) <==> |l.processes| > 0
    ensures l.irqNrWithOffset == (l.irqNr + irqOffset) % 0x1_0000_0000
  {
  }
}
