# flink core, modelled in Dafny

flink is a Linux driver for FPGA designs. A flink device is a memory window on a bus, here the
AXI bus of a Zynq. The window holds a chain of subdevices. Each subdevice starts with a header:
a function word, a size word, a channel count and a unique id. The driver does four things:

- It scans that chain when a device is added.
- It keeps a list of devices and, per device, a list of subdevices, with counter-assigned 8-bit ids.
- It lets a process that opened the device node select a subdevice, then read or write 32-bit
  words in it, read or write single bits through ioctls, and seek within it.
- It removes, when the AXI module unloads, exactly the devices that module owns.

The project models these parts in seven modules:

| file | module | models |
|---|---|---|
| `flink.dfy` | `Flink` | constants, records and the packed function word of `flink.h`; bounded integers with explicit wrap-around |
| `axi_bus.dfy` | `AxiBus` | the AXI bus operations of `zynq/flink_axi.c`: the offset guard, the 8/16/32-bit reads and writes over a byte-addressed window (little-endian), the address-space size |
| `devices.dfy` | `Devices` | `struct flink_device` as a class; subdevice add, remove and lookup; device delete |
| `scanner.dfy` | `Scanner` | `scan_for_subdevices`: the header walk as a function (`Walk`) and the loop as a method proved against it |
| `device_list.dfy` | `DeviceList` | the device list with its `dev_counter`; device add, remove and lookup by id or by char device |
| `session.dfy` | `Session` | the per-open-file state (`current_subdevice`, `f_pos`); select, read, write, the ioctls and llseek |
| `axi_driver.dfy` | `AxiDriver` | the owner filter of `flink_axi_remove` |

Modelling decisions:

- Fixed-width C integers are the subset types `u8`, `u16`, `u32` and `i64`.
  - Every place the C code can overflow is written out as a wrapping operation.
  - These are `Add32`, `Sub32`, `Inc8`, `Trunc8`, `Trunc32` and `Wrap64`.
  - The bit ioctls work on `bv32`.
- Linked lists are sequences, head first.
  - `list_add` prepends and `list_del` removes.
  - A subdevice is a value held by its device's sequence, so there is no `parent` pointer.
- `copy_from_user` and `copy_to_user` become boolean parameters that say whether the copy succeeded.
- A scan reads the bus through a `u32 -> u32` word reader.
  - `Scan(d)` instantiates that reader with the guarded AXI `read32` of the device's window.
- The header names the function fields `function_id`, `sub_function_id` and `function_version`,
  at offset `SUBDEV_FUNCTION_OFFSET` = 0.
  - The core writes `type_id`, `sub_type_id` and `if_version`, at `SUBDEV_TYPE_OFFSET`.
  - The model uses the header's names and offset 0.
  - The scanner never reads the unique id and has no special case for the info function (id 0x00).
    The model follows it.

## Model

| member | source | states |
|---|---|---|
| Flink.WrapArithmetic | flink_core.c:452 | `Add32` and `Sub32` are u32 addition and subtraction modulo 2^32, the arithmetic of `last_address` and `current_address += mem_size`; `Inc8` is the u8 `nof_subdevices++`, wrapping 255 to 0 |
| Flink.UnpackPack | flink_core.c:469-471 | cutting a function word into function id (bits 31-16), sub-function (15-8) and version (7-0) loses nothing: packing the fields gives the word back, and unpacking a packed triple gives the triple back |
| Flink.RegisteredIffSubscribed | flink.h:106-112 | in a consistent IRQ record (signal count = number of subscribed processes, line number precomputed with the device's IRQ offset), the line counts as registered exactly when some process is subscribed, and the precomputed number is the line plus the offset mod 2^32 |
| AxiBus.WordBytes16 | zynq/flink_axi.c:142-150 | the little-endian 16-bit word of two bytes and the two bytes of a word are inverse, both ways |
| AxiBus.WordBytes32 | zynq/flink_axi.c:152-160 | the little-endian 32-bit word of four bytes and the four bytes of a word are inverse, both ways |
| AxiBus.Read32OpAgrees | zynq/flink_axi.c:152-160 | the word reader handed to the scanner returns, at every address, what `flink_axi_read32` returns on the same bus data |
| AxiBus.Write8 | zynq/flink_axi.c:162-170 | always returns 0; the byte at the offset is stored when the guard admits the offset, otherwise the window is unchanged |
| AxiBus.Write16 | zynq/flink_axi.c:172-180 | always returns 0; the two bytes of the value are stored from the offset on when the guard admits it, otherwise nothing changes |
| AxiBus.Write32 | zynq/flink_axi.c:182-190 | always returns 0; the four bytes of the value are stored from the offset on when the guard admits it, otherwise nothing changes |
| AxiBus.AddressSpaceSize | zynq/flink_axi.c:192-195 | the configured window size truncated to u32: equal to it below 2^32, 0 at 2^32 |
| AxiBus.Read8 | zynq/flink_axi.c:128-140 | with bus data and an offset below the window size, the byte at the offset; with NULL bus data or an offset at or beyond the size, 0 |
| AxiBus.Read16 | zynq/flink_axi.c:142-150 | with bus data and an admitted offset, the word whose little-endian bytes are the two bytes from the offset on; otherwise 0 |
| AxiBus.Read32 | zynq/flink_axi.c:152-160 | with bus data and an admitted offset, the word whose little-endian bytes are the four bytes from the offset on; otherwise 0 |
| AxiBus.WriteThenRead32 | zynq/flink_axi.c:182-190 | the four little-endian bytes `iowrite32` stores at an offset load back as the word, and no byte outside the four written ones changes; the guard only decides whether the store and load happen |
| AxiBus.WriteThenRead16 | zynq/flink_axi.c:172-180 | the same for 16-bit writes and reads |
| AxiBus.WriteThenRead8 | zynq/flink_axi.c:162-170 | the same for 8-bit writes and reads |
| AxiBus.GuardChecksStartOnly | zynq/flink_axi.c:128-160 | the guard checks the start offset only: a 32-bit read at the last byte of the window is admitted, and its second byte comes from just past the window |
| Devices.Device.constructor | flink_core.c:513-519 | a new device as `flink_device_init` leaves it: id 0, no subdevices, count 0, no char device, and its module; the constructor also takes the bus data that the AXI probe stores right after initialising the device (zynq/flink_axi.c:298-299), merging the two steps |
| Devices.FindSubdevice | flink_core.c:785-804 | the lookup returns NULL exactly when no subdevice in the list has the id; otherwise it returns the first one in list order that has it |
| Devices.GetSubdeviceById | flink_core.c:785-804 | a NULL device yields NULL; otherwise the result is the lookup in the device's subdevice list |
| Devices.SubdeviceAdd | flink_core.c:708-732 | NULL device or subdevice returns -1 and changes nothing; otherwise the subdevice gets the old count as its id, is linked at the head, the count is incremented with u8 wrap-around, and the id is returned |
| Devices.SubdeviceRemove | flink_core.c:741-756 | NULL returns -1 and changes nothing; otherwise the one subdevice is unlinked, the others keep their order, and `nof_subdevices` is not decremented |
| Devices.DeviceDelete | flink_core.c:588-608 | NULL returns -1; otherwise every subdevice is removed and 0 is returned; the device's id and counter are unchanged |
| Devices.CounterValue | flink_core.c:708-732 | after k additions starting from count c, the count is (c + k) mod 256 |
| Devices.StackedAt | flink_core.c:708-732 | after k head insertions the list is the added subdevices in reverse order, the j-th from the head carrying the id of its position in the addition order |
| Devices.FreshIdsFound | flink_core.c:785-804 | for up to 256 subdevices added to an empty device, each id below the count finds exactly the subdevice added with it, and every other id finds nothing |
| Scanner.NewSubdeviceFields | flink_core.c:465-474 | the record created for a block keeps the whole function word, split into its three fields, and the block's base, size and channel count; id and unique id stay 0 |
| Scanner.ScanForSubdevices | flink_core.c:449-490 | the loop adds exactly the walk's subdevices, in walk order, through `flink_subdevice_add`; it returns their number; the count advances by that number mod 256 |
| Scanner.WalkBounded | flink_core.c:462 | a walk creates at most 256 subdevices in all |
| Scanner.Scan | flink_core.c:449-462 | a whole scan of a device's window creates at most 256 subdevices |
| Scanner.WalkBlocks | flink_core.c:462-474 | every created subdevice starts below `last_address`, declares a size above 32 that equals its size word, and carries its block's function word and channel count |
| Scanner.WalkChain | flink_core.c:472-481 | the blocks lie back to back: the first at the start address, each next one at the previous base plus its size (mod 2^32) |
| Scanner.WalkStops | flink_core.c:462-487 | where the walk ends, the cursor is not below `last_address`, or 256 subdevices exist, or the size word there is 32 or less |
| Scanner.WalkOrdered | flink_core.c:472-481 | while no addition that moves the cursor to a later block wraps, the blocks come in strictly increasing address order and do not overlap |
| Scanner.ScanShape | flink_core.c:450-462 | a scan creates at most 256 subdevices, the first at address 0, every one starting below `size - 1` (mod 2^32) |
| Scanner.EmptyWindowScansNothing | flink_core.c:452 | for a zero-size window `last_address` wraps to 0xFFFFFFFF, yet the scan creates nothing, because every read returns 0 |
| Scanner.OneBlockWindow | flink_core.c:462-487 | a 48-byte window whose first header declares 48 bytes yields exactly one subdevice, at 0, with the decoded fields |
| Scanner.BlockPastWindow | flink_core.c:462-481 | a block may declare more bytes than the window holds: a 48-byte window whose first size word is 100 yields one subdevice at 0 whose end, 100, lies past the window |
| Scanner.CursorWrapOverlaps | flink_core.c:481 | a size word near 2^32 wraps the cursor back into the first block, and the scan then creates a subdevice that overlaps it |
| DeviceList.Registry.constructor | flink_core.c:36 | the device list starts empty with the device counter at 0 |
| DeviceList.GetDeviceById | flink_core.c:618-635 | NULL exactly when no device in the list has the id; otherwise the first device in list order that has it |
| DeviceList.GetDeviceByCdev | flink_core.c:645-662 | NULL exactly when no device in the list has that char device; otherwise the first device in list order that has it |
| DeviceList.CreateDeviceNode | flink_core.c:387-440 | on its success path the device gets a fresh char device and 0 is returned; nothing else changes |
| DeviceList.DeviceAdd | flink_core.c:528-551 | NULL returns -1 and changes nothing; otherwise the device takes the u32 counter truncated to u8 as its id, the counter is incremented mod 2^32, the device is linked at the head, the scan's subdevices are added to it, it gets a char device, and the id is returned |
| DeviceList.DeviceRemove | flink_core.c:560-577 | NULL returns -1 and changes nothing; otherwise the device is unlinked, every other device stays in order, the counter is untouched, and 0 is returned |
| DeviceList.WithoutKeepsOthers | flink_core.c:560-577 | after an unlink, a device is in the list exactly when it was before and is not the unlinked one |
| DeviceList.UnlinkIsWithout | flink_core.c:560-577 | unlinking a device by its position in a list that links it once is removing that device |
| DeviceList.WithoutAbsent | flink_core.c:560-577 | unlinking a device the list does not hold changes nothing |
| DeviceList.AddedIsFound | flink_core.c:528-551 | a device just added is what its id and its char device find |
| DeviceList.RemovedIsNotFound | flink_core.c:560-577 | a removed device is found neither by any id nor by any char device |
| DeviceList.IdAfter | flink_core.c:529-533 | the id handed out k adds after counter c is the u8 id counter moved on k times from the truncated c, across the u32 wrap as well |
| DeviceList.IdsDiffer | flink_core.c:529-533 | two adds fewer than 256 apart hand out different ids |
| DeviceList.IdsRepeat | flink_core.c:529-533 | two adds exactly 256 apart hand out the same id |
| DeviceList.FirstIsFound | flink_core.c:618-635 | the device at the first list position carrying an id is what lookup by that id returns |
| DeviceList.IdReuse | flink_core.c:528-534 | after 257 successive adds that each link their device at the head, the newest device has the oldest one's id again; each of the 256 newest devices is found by its own id, and the oldest is found by no id at all |
| Session.OpenFile.Open | flink_core.c:42-52 | a freshly opened file has its device, no selected subdevice and position 0 |
| Session.SelectSubdevice | flink_core.c:815-829 | a NULL device returns -1 with the selection unchanged; otherwise the selection becomes the lookup result (NULL for an unknown id) and 0 is returned; the exclusive flag has no effect |
| Session.Trunc32 | flink_core.c:87 | the u32 conversion of the file position: non-negative positions below 2^32 are kept, negative ones above -2^32 are moved up by 2^32; every result is congruent to the position mod 2^32 |
| Session.TransferAddress | flink_core.c:87-91 | a transfer is admitted exactly when the u32 offset is at most the subdevice's `mem_size`; the bus address is then base + offset mod 2^32 |
| Session.Read | flink_core.c:62-111 | returns 4 exactly when a subdevice is selected, the size is 4, the offset is admitted and the copy to user space succeeds; otherwise 0; an admitted transfer reads the guarded 32-bit word at the transfer address |
| Session.Write | flink_core.c:113-161 | returns 4 exactly when a subdevice is selected, the size is 4, the offset is admitted and the copy from user space succeeds; otherwise 0 and the window is unchanged; a write that happens stores the word at the transfer address through the guard |
| Session.MaskTests | flink_core.c:258 | `temp & (1 << bit)` is non-zero exactly when bit `bit` of `temp` is set |
| Session.SetBitReads | flink_core.c:290-301 | after the read-modify-write, the chosen bit is set exactly when the value was non-zero |
| Session.SetBitKeeps | flink_core.c:290-301 | after the read-modify-write, every other bit keeps its value |
| Session.MaskKeepsOthers | flink_core.c:290-301 | or-ing in the mask and and-ing with its complement leave every other bit unchanged |
| Session.SetBitEffect | flink_core.c:290-301 | the chosen bit takes the value and all other 31 bits keep theirs |
| Session.WordRoundTrip | flink_core.c:286-302 | a 32-bit word converted to a number and back is the same word |
| Session.BitValueOf | flink_core.c:258 | the reported value is 1 exactly when the bit is set and 0 exactly when it is clear |
| Session.IoctlReadNofSubdevices | flink_core.c:199-210 | the reply is the device's `nof_subdevices`; 0 is returned exactly when the copy out succeeds, otherwise -EINVAL |
| Session.IoctlReadSubdeviceInfo | flink_core.c:211-242 | 0 exactly when the id copies in, is below `nof_subdevices`, is found and the descriptor copies out; the descriptor is then the subdevice with that id; otherwise -EINVAL |
| Session.IoctlReadSingleBit | flink_core.c:243-269 | 0 exactly when both copies succeed, otherwise -EINVAL; the reported value is 1 exactly when the bit is set in the word read at base + offset |
| Session.IoctlWriteSingleBit | flink_core.c:270-303 | a failed copy returns -EINVAL and leaves the window unchanged; otherwise 0, and, when the bus guard admits base + offset, the word read there is written back with only the chosen bit changed to the value; a refused address leaves the window unchanged |
| Session.Ioctl | flink_core.c:163-311 | each command returns, replies and writes what its handler does: the count and the subdevice descriptor with their -EINVAL cases, the bit read at base + offset, the bit written there through the guard; unknown commands return -EINVAL; the two select commands behave as select, or return -EINVAL on a failed copy; only the select commands change the selection; only WRITE_SINGLE_BIT changes the window; the position never changes |
| Session.Wrap64 | flink_core.c:324-329 | the loff_t sum: congruent to the exact sum mod 2^64, and equal to it when it fits |
| Session.Llseek | flink_core.c:313-341 | without a selected subdevice, for an unknown whence, or for a negative new position: -EINVAL with the position unchanged; otherwise the new position is stored and returned |
| Session.SeekTargets | flink_core.c:320-332 | SEEK_SET targets the offset, SEEK_CUR the position plus the offset, SEEK_END `mem_size` plus the offset (when the sum fits), and every other whence targets nothing |
| Session.EndOffsetAdmitted | flink_core.c:88-91 | the offset `mem_size` itself is admitted and addresses base + `mem_size`, the first byte past the subdevice; one byte further is refused unless it wraps |
| Session.WriteBitThenReadBit | flink_core.c:286-302 | where the bus guard admits the address, the word `flink_axi_read32` returns there after WRITE_SINGLE_BIT is the written word, and READ_SINGLE_BIT of the same bit reports the value written; where the guard refuses it, the read returns 0 and the bit reads 0 |
| AxiDriver.AxiRemove | zynq/flink_axi.c:328-348 | returns 0; the list keeps exactly the devices of other modules, in order; every device this module owns has lost its subdevices; every other device keeps them; every listed device keeps its id, count, bus data and char device; the counter is unchanged |
| AxiDriver.OthersFilter | zynq/flink_axi.c:337-346 | a device remains exactly when it was listed and another module owns it |
| AxiDriver.OthersKeepsAll | zynq/flink_axi.c:337-346 | a list holding only other modules' devices is kept whole, in order |

## Left out

- Interrupts: the code that registers, unregisters and dispatches IRQs is absent from the modelled sources. flink.h:126 declares only `flink_device_init_irq`, and its body is not among them. So only the `flink_irq_data` record and its consistency are modelled. The relation of `signal_nr_with_offset` to the signal offset comes from the field comments.
- Locks and concurrency: the spinlock and the mutex of the IRQ record, and concurrent callers of the list operations, are not modelled. Every operation runs alone.
- Module init and exit, the sysfs class, `printk` debugging, `flink_device_alloc`, `flink_subdevice_alloc` and `kfree`: memory lifetimes are not modelled. A deleted object only leaves its sequence.
- DeviceList.CreateDeviceNode: models only the success path. The chrdev region, cdev, minor number and sysfs node, and their failure paths, are kernel plumbing outside the model.
- DeviceList.DeviceRemove: does not model `device_destroy` or `cdev_del` of the device node.
- `flink_open` and `flink_relase`: open allocates the private data, which `Session.OpenFile.Open` models. The NULL private-data branches of read, write and llseek cannot arise after a successful open and are not modelled.
- Session.Read and Session.Write: the code reaches the bus through `subdev->parent`. Subdevices carry no parent pointer here, so the model uses the bus of the open file's device. The selected subdevice always comes from that device's own list, so the two are the same device.
- `copy_to_user` and `copy_from_user` are a success flag per call. A partial copy is a failure.
- Session.Read and Session.Write: transfers of 1 or 2 bytes, and of more than 4, return 0 without touching the bus, as the code does. The position is not advanced, as in the code.
- Session.SelectSubdevice: the exclusive flag is accepted and ignored, as in the code.
- Session.Ioctl: the numeric ioctl codes are replaced by the `Command` datatype.
- Session.Ioctl, IoctlReadNofSubdevices, IoctlReadSubdeviceInfo: require a device where the code dereferences `pdata->fdev` without a check: always for READ_NOF_SUBDEVICES, and for READ_SUBDEVICE_INFO only once the id has been copied in.
- Session.IoctlReadSingleBit and IoctlWriteSingleBit: require a selected subdevice, because the code dereferences `current_subdevice` without a check. They require `bit < 32`, because a shift by 32 or more is undefined in C. The `subdevice` field of the bit container is not used by the code and not modelled.
- Session.Read and Session.Write: `base_addr + offset` is the u32 sum, so a position beyond 2^32 is truncated before the comparison. The comparison admits `offset == mem_size`, one word past the subdevice. That is the code's behaviour, stated by `Session.EndOffsetAdmitted`.
- Session.Llseek: `loff_t` overflow in `f_pos + off` and `mem_size + off` is undefined in C. It is modelled as 64-bit wrap-around (`Wrap64`).
- AXI probe, device-tree reads, `request_mem_region`, `ioremap`, the platform driver and `iounmap`/`release_mem_region`/`kfree` in remove: not modelled. The window is a byte map `io`, and `ioread*`/`iowrite*` are loads and stores on it.
- AxiBus.AddressSpaceSize: probe fills the `resource_size_t` size from the u32 device-tree cell `reg[1]` or from a constant, so it always fits in u32. The model allows any natural number and states the u32 cast for all of them.
- The only bus backend modelled is AXI. The core sees it through `Read32Op` and the `BusData` of a device, not through a bus_ops table of function pointers.
- The scanner does not bound `base_addr + mem_size` by the window size: no size word is compared with the window, so a subdevice may extend past it (`Scanner.BlockPastWindow`). The model follows the code and does not promise that bound.
- The info-function bound override (id 0x00) and the unique id are not read by the scanner. The model does not invent them.
