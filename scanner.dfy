/**
 * The subdevice scanner of flink_core.c (scan_for_subdevices).
 *
 * From address 0 the scanner reads each block's function word and size
 * word.  While the size exceeds the two 16-byte headers it creates a
 * subdevice for the block and moves the cursor on by the block's size;
 * a smaller size ends the chain.  The walk also stops once the cursor is
 * no longer below last_address = size - 1, or after 256 subdevices.  All
 * address arithmetic is u32 and wraps.
 */
module Scanner {
  import opened Flink
  import AxiBus
  import opened Devices

  /** The size a block must exceed to be a subdevice: both headers. */
  const CREATION_THRESHOLD: u32 := MAIN_HEADER_SIZE + SUB_HEADER_SIZE

  /** The record the scanner fills in for a block (the id is given later by flink_subdevice_add). */
  function NewSubdevice(functionWord: u32, base: u32, memSize: u32, nofChannels: u32): Subdevice
  {
    var f := UnpackFunction(functionWord);
    BLANK_SUBDEVICE.(functionId := f.functionId, subFunctionId := f.subFunctionId, functionVersion := f.functionVersion,
                     baseAddr := base, memSize := memSize, nofChannels := nofChannels)
  }

  /**
   * The new record keeps the whole function word, split into its three
   * fields, and the block's base, size and channel count; id and unique id
   * stay 0.
   */
  lemma NewSubdeviceFields(functionWord: u32, base: u32, memSize: u32, nofChannels: u32)
    ensures var s := NewSubdevice(functionWord, base, memSize, nofChannels);
      && PackFunction(s.Function()) == functionWord
      && s.baseAddr == base && s.memSize == memSize && s.nofChannels == nofChannels
      && s.id == 0 && s.uniqueId == 0
  {
    UnpackPack(UnpackFunction(functionWord), functionWord);
  }

  /** bus_ops->read32 of a device as the scanner uses it: the 32-bit word read at each offset. */
  type WordReader = u32 -> u32

  /** The size word of the block at `current`. */
  function SizeWord(w: WordReader, current: u32): u32
  {
    w(Add32(current, SUBDEV_SIZE_OFFSET))
  }

  /** The subdevice the scanner creates for the block at `current`. */
  function BlockAt(w: WordReader, current: u32): Subdevice
  {
    NewSubdevice(w(Add32(current, SUBDEV_FUNCTION_OFFSET)), current, SizeWord(w, current),
                 w(Add32(current, SUBDEV_NOFCHANNELS_OFFSET)))
  }

  /** The subdevices the walk creates from `current` on, when `count` were created before. */
  function Walk(w: WordReader, current: u32, last: u32, count: nat): seq<Subdevice>
    requires count <= MAX_NOF_SUBDEVICES
    decreases MAX_NOF_SUBDEVICES - count
  {
    if current < last && count < MAX_NOF_SUBDEVICES && SizeWord(w, current) > CREATION_THRESHOLD then
      [BlockAt(w, current)] + Walk(w, Add32(current, SizeWord(w, current)), last, count + 1)
    else []
  }

  /** The subdevices a scan creates on a window of `size` bytes whose words are `w`, in creation order. */
  function ScanWindow(w: WordReader, size: u32): seq<Subdevice>
  {
    Walk(w, 0, Sub32(size, 1), 0)
  }

  /** The subdevices a whole scan of the bus creates, in the order it creates them. */
  function Scan(d: AxiBus.BusData): (r: seq<Subdevice>)
    reads d
    ensures |r| <= MAX_NOF_SUBDEVICES
  {
    WalkBounded(AxiBus.Read32Op(d), 0, Sub32(AxiBus.AddressSpaceSize(d), 1), 0);
    ScanWindow(AxiBus.Read32Op(d), AxiBus.AddressSpaceSize(d))
  }

  /**
   * scan_for_subdevices: adds the subdevices of ScanWindow(read32,
   * addressSpaceSize) to the device, one flink_subdevice_add each, and
   * returns how many it added.  `read32` and `addressSpaceSize` are what
   * the device's bus_ops->read32 and bus_ops->address_space_size yield.
   */
  method ScanForSubdevices(fdev: Device, read32: WordReader, addressSpaceSize: u32) returns (n: nat)
    modifies fdev
    ensures n == |ScanWindow(read32, addressSpaceSize)|
    ensures fdev.subdevices == Stacked(ScanWindow(read32, addressSpaceSize), old(fdev.nofSubdevices)) + old(fdev.subdevices)
    ensures fdev.nofSubdevices == Counter(old(fdev.nofSubdevices), n)
    ensures unchanged(fdev`id, fdev`busData, fdev`charDevice)
  {
    var subdeviceCounter: nat := 0;
    var currentAddress: u32 := 0;
    var lastAddress: u32 := Sub32(Add32(currentAddress, addressSpaceSize), 1);
    ghost var c0 := fdev.nofSubdevices;
    ghost var scan := ScanWindow(read32, addressSpaceSize);
    ghost var added: seq<Subdevice> := [];
    ghost var tail := fdev.subdevices;
    while currentAddress < lastAddress && subdeviceCounter < MAX_NOF_SUBDEVICES
      invariant subdeviceCounter == |added| <= MAX_NOF_SUBDEVICES
      invariant added + Walk(read32, currentAddress, lastAddress, subdeviceCounter) == scan
      invariant fdev.subdevices == Stacked(added, c0) + tail
      invariant fdev.nofSubdevices == Counter(c0, |added|)
      invariant unchanged(fdev`id, fdev`busData, fdev`charDevice)
      decreases MAX_NOF_SUBDEVICES - subdeviceCounter
    {
      var currentType := read32(Add32(currentAddress, SUBDEV_FUNCTION_OFFSET));
      var currentMemSize := read32(Add32(currentAddress, SUBDEV_SIZE_OFFSET));
      if currentMemSize > CREATION_THRESHOLD {
        var nofChannels := read32(Add32(currentAddress, SUBDEV_NOFCHANNELS_OFFSET));
        var newSubdev := NewSubdevice(currentType, currentAddress, currentMemSize, nofChannels);
        ghost var added' := added + [newSubdev];
        assert added' + Walk(read32, Add32(currentAddress, currentMemSize), lastAddress, subdeviceCounter + 1) == scan by {
          assert newSubdev == BlockAt(read32, currentAddress);
          ScanStep(read32, currentAddress, lastAddress, subdeviceCounter, added, scan);
        }
        AddScanned(fdev, newSubdev, added, c0, tail);
        added := added';
        subdeviceCounter := subdeviceCounter + 1;
        currentAddress := Add32(currentAddress, currentMemSize);
      } else {
        assert added == scan by {
          WalkEnd(read32, currentAddress, lastAddress, subdeviceCounter);
        }
        break;
      }
    }
    if !(currentAddress < lastAddress && subdeviceCounter < MAX_NOF_SUBDEVICES) {
      assert added == scan by {
        WalkEnd(read32, currentAddress, lastAddress, subdeviceCounter);
      }
    }
    n := subdeviceCounter;
  }

  /**
   * One flink_subdevice_add of the scan: the list built from `added` on top
   * of `tail` becomes the one built from added + [s].
   */
  method AddScanned(fdev: Device, s: Subdevice, ghost added: seq<Subdevice>, ghost c0: u8, ghost tail: seq<Subdevice>)
    requires fdev.subdevices == Stacked(added, c0) + tail
    requires fdev.nofSubdevices == Counter(c0, |added|)
    modifies fdev
    ensures fdev.subdevices == Stacked(added + [s], c0) + tail
    ensures fdev.nofSubdevices == Counter(c0, |added + [s]|)
    ensures unchanged(fdev`id, fdev`busData, fdev`charDevice)
  {
    var _ := SubdeviceAdd(fdev, Some(s));
    PushStacked(added, s, c0, tail);
  }

  /** Adding one more subdevice in front of the list built so far extends the stack. */
  lemma PushStacked(added: seq<Subdevice>, h: Subdevice, c: u8, tail: seq<Subdevice>)
    ensures [h.(id := Counter(c, |added|))] + (Stacked(added, c) + tail) == Stacked(added + [h], c) + tail
  {
    StackedSnoc(added, h, c);
  }

  /** The loop's account of the walk survives one created subdevice. */
  lemma ScanStep(w: WordReader, current: u32, last: u32, count: nat, added: seq<Subdevice>, scan: seq<Subdevice>)
    requires current < last && count < MAX_NOF_SUBDEVICES && SizeWord(w, current) > CREATION_THRESHOLD
    requires added + Walk(w, current, last, count) == scan
    ensures (added + [BlockAt(w, current)]) + Walk(w, Add32(current, SizeWord(w, current)), last, count + 1) == scan
  {
    WalkStep(w, current, last, count);
  }

  /** One step of the walk: a block whose size word exceeds 32 is created and the walk goes on after it. */
  lemma WalkStep(w: WordReader, current: u32, last: u32, count: nat)
    requires current < last && count < MAX_NOF_SUBDEVICES && SizeWord(w, current) > CREATION_THRESHOLD
    ensures Walk(w, current, last, count) == [BlockAt(w, current)] + Walk(w, Add32(current, SizeWord(w, current)), last, count + 1)
  {
  }

  /** The walk creates nothing once the cursor, the count or the size word stops it. */
  lemma WalkEnd(w: WordReader, current: u32, last: u32, count: nat)
    requires count <= MAX_NOF_SUBDEVICES
    requires !(current < last && count < MAX_NOF_SUBDEVICES && SizeWord(w, current) > CREATION_THRESHOLD)
    ensures Walk(w, current, last, count) == []
  {
  }

  // ############ properties of the walk ############

  /** The walk creates at most 256 subdevices in all. */
  lemma {:induction false} WalkBounded(w: WordReader, current: u32, last: u32, count: nat)
    requires count <= MAX_NOF_SUBDEVICES
    ensures |Walk(w, current, last, count)| <= MAX_NOF_SUBDEVICES - count
    decreases MAX_NOF_SUBDEVICES - count
  {
    if current < last && count < MAX_NOF_SUBDEVICES && SizeWord(w, current) > CREATION_THRESHOLD {
      WalkBounded(w, Add32(current, SizeWord(w, current)), last, count + 1);
    }
  }

  /**
   * Every subdevice the walk creates describes a block starting below
   * `last` whose size word exceeds 32, with its fields read from that
   * block's header: function fields from the function word, size, channel
   * count; id and unique id stay 0.
   */
  lemma {:induction false} WalkBlocks(w: WordReader, current: u32, last: u32, count: nat, i: int)
    requires count <= MAX_NOF_SUBDEVICES
    requires 0 <= i < |Walk(w, current, last, count)|
    ensures var s := Walk(w, current, last, count)[i];
      && s.baseAddr < last
      && s.memSize > CREATION_THRESHOLD
      && s.memSize == SizeWord(w, s.baseAddr)
      && PackFunction(s.Function()) == w(Add32(s.baseAddr, SUBDEV_FUNCTION_OFFSET))
      && s.nofChannels == w(Add32(s.baseAddr, SUBDEV_NOFCHANNELS_OFFSET))
      && s.id == 0 && s.uniqueId == 0
    decreases MAX_NOF_SUBDEVICES - count
  {
    if i > 0 {
      WalkBlocks(w, Add32(current, SizeWord(w, current)), last, count + 1, i - 1);
    } else {
      NewSubdeviceFields(w(Add32(current, SUBDEV_FUNCTION_OFFSET)), current, SizeWord(w, current),
                         w(Add32(current, SUBDEV_NOFCHANNELS_OFFSET)));
    }
  }

  /** The blocks lie back to back: the first at the start address, each next one at the previous base plus its size (u32). */
  lemma {:induction false} WalkChain(w: WordReader, current: u32, last: u32, count: nat, i: int)
    requires count <= MAX_NOF_SUBDEVICES
    requires 0 <= i < |Walk(w, current, last, count)|
    ensures var hs := Walk(w, current, last, count);
      && (i == 0 ==> hs[0].baseAddr == current)
      && (i + 1 < |hs| ==> hs[i + 1].baseAddr == Add32(hs[i].baseAddr, hs[i].memSize))
    decreases MAX_NOF_SUBDEVICES - count
  {
    var next := Add32(current, SizeWord(w, current));
    if i > 0 {
      WalkChain(w, next, last, count + 1, i - 1);
    } else if 1 < |Walk(w, current, last, count)| {
      WalkChain(w, next, last, count + 1, 0);
    }
  }

  /**
   * The walk ends at the sentinel or at the bounds: after the last block
   * created (or at the start, if none was), either the cursor is no longer
   * below `last`, or 256 subdevices exist, or the next size word is 32 or
   * less.
   */
  lemma {:induction false} WalkStops(w: WordReader, current: u32, last: u32, count: nat)
    requires count <= MAX_NOF_SUBDEVICES
    ensures var hs := Walk(w, current, last, count);
      var end := if hs == [] then current else Add32(hs[|hs| - 1].baseAddr, hs[|hs| - 1].memSize);
      !(end < last) || count + |hs| == MAX_NOF_SUBDEVICES || SizeWord(w, end) <= CREATION_THRESHOLD
    decreases MAX_NOF_SUBDEVICES - count
  {
    var hs := Walk(w, current, last, count);
    if hs != [] {
      var next := Add32(current, SizeWord(w, current));
      WalkStops(w, next, last, count + 1);
      var rest := Walk(w, next, last, count + 1);
      assert hs == [hs[0]] + rest;
      if rest != [] {
        assert hs[|hs| - 1] == rest[|rest| - 1];
      } else {
        assert hs[|hs| - 1] == BlockAt(w, current);
      }
    }
  }

  /**
   * The u32 additions that link each block to the next do not wrap; the
   * last block's end is never added to a later one, so it is left free.
   */
  ghost predicate NoWrap(hs: seq<Subdevice>)
  {
    forall i :: 0 <= i < |hs| - 1 ==> hs[i].baseAddr + hs[i].memSize < TWO_TO_32
  }

  /**
   * While no u32 addition of the chain wraps, the blocks come in strictly
   * increasing address order and do not overlap: each ends at or before
   * the start of every later one.
   */
  lemma {:induction false} WalkOrdered(w: WordReader, current: u32, last: u32, count: nat, i: int, j: int)
    requires count <= MAX_NOF_SUBDEVICES
    requires NoWrap(Walk(w, current, last, count))
    requires 0 <= i < j < |Walk(w, current, last, count)|
    ensures var hs := Walk(w, current, last, count);
      hs[i].baseAddr < hs[i].baseAddr + hs[i].memSize <= hs[j].baseAddr
    decreases j
  {
    var hs := Walk(w, current, last, count);
    WalkBlocks(w, current, last, count, i);
    WalkChain(w, current, last, count, j - 1);
    if i < j - 1 {
      WalkOrdered(w, current, last, count, i, j - 1);
      WalkBlocks(w, current, last, count, j - 1);
    }
  }

  // ############ whole scans ############

  /** A scan creates at most 256 subdevices, the first at address 0 and all below last_address. */
  lemma ScanShape(w: WordReader, size: u32)
    ensures |ScanWindow(w, size)| <= MAX_NOF_SUBDEVICES
    ensures ScanWindow(w, size) != [] ==> ScanWindow(w, size)[0].baseAddr == 0
    ensures forall i :: 0 <= i < |ScanWindow(w, size)| ==> ScanWindow(w, size)[i].baseAddr < Sub32(size, 1)
  {
    var last := Sub32(size, 1);
    WalkBounded(w, 0, last, 0);
    if ScanWindow(w, size) != [] {
      WalkChain(w, 0, last, 0, 0);
    }
    forall i | 0 <= i < |ScanWindow(w, size)| ensures ScanWindow(w, size)[i].baseAddr < last {
      WalkBlocks(w, 0, last, 0, i);
    }
  }

  /**
   * An empty window scans nothing.  Its last_address wraps to 0xFFFFFFFF,
   * so the loop is entered, but the size word at offset 4 is refused by
   * the bus guard and reads as 0.
   */
  lemma EmptyWindowScansNothing(d: AxiBus.BusData)
    requires d.size == 0
    ensures Sub32(AxiBus.AddressSpaceSize(d), 1) == 0xFFFF_FFFF
    ensures Scan(d) == []
  {
    AxiBus.Read32OpAgrees(d, 4);
  }

  /**
   * A 48-byte window whose one block has function word 0x00010203, size 48
   * and one channel scans to exactly one subdevice: function 0x0001/0x02,
   * version 0x03, base 0, size 48.
   */
  lemma OneBlockWindow(w: WordReader)
    requires w(0) == 0x0001_0203 && w(4) == 48 && w(8) == 1
    ensures ScanWindow(w, 48) == [Subdevice(0, 0x0001, 0x02, 0x03, 0, 48, 1, 0)]
  {
    assert SizeWord(w, 0) == 48;
    assert Walk(w, 48, 47, 1) == [];
    assert UnpackFunction(0x0001_0203) == FunctionType(0x0001, 0x02, 0x03);
  }

  /**
   * A block may declare more bytes than the window holds: the scanner never
   * compares a size word with the window, so a 48-byte window whose first
   * block declares 100 bytes yields one subdevice that ends past the window.
   */
  lemma BlockPastWindow(w: WordReader)
    requires w(4) == 100
    ensures var hs := ScanWindow(w, 48);
      && |hs| == 1
      && hs[0].baseAddr == 0 && hs[0].memSize == 100
      && hs[0].baseAddr + hs[0].memSize > 48
  {
    assert SizeWord(w, 0) == 100;
    assert Walk(w, 100, 47, 1) == [];
  }

  /**
   * The cursor addition wraps: a block at 0x40 declaring 0xFFFFFFD0 bytes
   * sends the cursor back to 0x10, inside the first block, and the scan
   * creates a subdevice there that overlaps the first one.
   */
  lemma CursorWrapOverlaps(w: WordReader)
    requires w(4) == 0x40 && w(0x44) == 0xFFFF_FFD0 && w(0x14) == 0x40
    ensures var hs := ScanWindow(w, 0x100);
      && |hs| >= 3
      && hs[0].baseAddr == 0 && hs[1].baseAddr == 0x40 && hs[2].baseAddr == 0x10
      && hs[2].baseAddr < hs[0].baseAddr + hs[0].memSize
  {
    assert SizeWord(w, 0) == 0x40;
    assert SizeWord(w, 0x40) == 0xFFFF_FFD0;
    assert SizeWord(w, 0x10) == 0x40;
    var w2 := Walk(w, 0x10, 0xFF, 2);
    assert w2 == [BlockAt(w, 0x10)] + Walk(w, 0x50, 0xFF, 3);
    var w1 := Walk(w, 0x40, 0xFF, 1);
    assert w1 == [BlockAt(w, 0x40)] + w2;
  }
}
