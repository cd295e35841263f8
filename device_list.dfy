/**
 * The list of flink devices (flink_core.c: device_list and the functions
 * that add, remove, delete and look up devices).
 *
 * The list is a sequence with the most recently added device first, as
 * list_add links at the head.  Each added device takes the u32 counter of
 * flink_device_add as its id, truncated to the u8 id field, so ids repeat
 * after 256 devices and the newer device then hides the older one from
 * lookup by id.
 */
module DeviceList {
  import opened Flink
  import AxiBus
  import opened Devices
  import Scanner

  /** device_list together with the static dev_counter of flink_device_add. */
  class Registry {
    /** device_list, most recently added first. */
    var devices: seq<Device>
    var devCounter: u32

    /** The list links every device once. */
    ghost predicate Valid()
      reads this
    {
      forall i, j :: 0 <= i < j < |devices| ==> devices[i] != devices[j]
    }

    /** LIST_HEAD(device_list) and the counter's initial 0. */
    constructor ()
      ensures devices == [] && devCounter == 0 && Valid()
    {
      devices := [];
      devCounter := 0;
    }
  }

  // ############ lookup ############

  /** `k` is the first position of `ds` whose device carries `id`. */
  ghost predicate FirstDeviceWithId(ds: seq<Device>, id: u8, k: int)
    reads ds
  {
    0 <= k < |ds| && ds[k].id == id && forall j :: 0 <= j < k ==> ds[j].id != id
  }

  /** flink_get_device_by_id: the first device in the list with the id, or NULL. */
  function GetDeviceById(ds: seq<Device>, id: u8): (r: Option<Device>)
    reads ds
    ensures r.None? <==> forall k :: 0 <= k < |ds| ==> ds[k].id != id
    ensures r.Some? ==> exists k :: FirstDeviceWithId(ds, id, k) && ds[k] == r.value
  {
    if ds == [] then None
    else if ds[0].id == id then Some(ds[0])
    else
      var r := GetDeviceById(ds[1..], id);
      assert r.Some? ==> exists k :: FirstDeviceWithId(ds, id, k) && ds[k] == r.value by {
        if r.Some? {
          var k :| FirstDeviceWithId(ds[1..], id, k) && ds[1..][k] == r.value;
          assert FirstDeviceWithId(ds, id, k + 1);
        }
      }
      r
  }

  /** `k` is the first position of `ds` whose device has the char device `cdev`. */
  ghost predicate FirstDeviceWithCdev(ds: seq<Device>, cdev: CharDevice?, k: int)
    reads ds
  {
    0 <= k < |ds| && ds[k].charDevice == cdev && forall j :: 0 <= j < k ==> ds[j].charDevice != cdev
  }

  /** flink_get_device_by_cdev: the first device in the list whose char device is `cdev`, or NULL. */
  function GetDeviceByCdev(ds: seq<Device>, cdev: CharDevice?): (r: Option<Device>)
    reads ds
    ensures r.None? <==> forall k :: 0 <= k < |ds| ==> ds[k].charDevice != cdev
    ensures r.Some? ==> r.value in ds && r.value.charDevice == cdev
    ensures r.Some? ==> exists k :: FirstDeviceWithCdev(ds, cdev, k) && ds[k] == r.value
  {
    if ds == [] then None
    else if ds[0].charDevice == cdev then Some(ds[0])
    else
      var r := GetDeviceByCdev(ds[1..], cdev);
      assert r.Some? ==> exists k :: FirstDeviceWithCdev(ds, cdev, k) && ds[k] == r.value by {
        if r.Some? {
          var k :| FirstDeviceWithCdev(ds[1..], cdev, k) && ds[1..][k] == r.value;
          assert FirstDeviceWithCdev(ds, cdev, k + 1);
        }
      }
      r
  }

  // ############ add, remove, delete ############

  /**
   * create_device_node on its success path: the device gets a fresh char
   * device.  Returns 0.
   */
  method CreateDeviceNode(fdev: Device) returns (r: int)
    modifies fdev
    ensures r == 0
    ensures fdev.charDevice != null && fresh(fdev.charDevice)
    ensures unchanged(fdev`id, fdev`nofSubdevices, fdev`subdevices, fdev`busData)
  {
    fdev.charDevice := new CharDevice();
    return 0;
  }

  /**
   * flink_device_add: the device takes the counter (truncated to u8) as
   * its id, the counter is incremented, the device is linked at the head of
   * the list, its bus is scanned for subdevices and its device node is
   * created; the id is returned.  NULL yields -1.
   */
  method DeviceAdd(reg: Registry, fdev: Device?) returns (r: int)
    requires reg.Valid()
    requires fdev != null ==> fdev !in reg.devices && fdev.busData != null
    modifies reg, fdev
    ensures reg.Valid()
    ensures fdev == null ==> r == UNKOWN_ERROR && unchanged(reg)
    ensures fdev != null ==>
      && r == fdev.id == Trunc8(old(reg.devCounter))
      && reg.devCounter == Add32(old(reg.devCounter), 1)
      && reg.devices == [fdev] + old(reg.devices)
      && fdev.busData == old(fdev.busData)
      && fdev.subdevices == Stacked(Scanner.Scan(fdev.busData), old(fdev.nofSubdevices)) + old(fdev.subdevices)
      && fdev.nofSubdevices == Counter(old(fdev.nofSubdevices), |Scanner.Scan(fdev.busData)|)
      && fdev.charDevice != null && fresh(fdev.charDevice)
  {
    if fdev == null {
      return UNKOWN_ERROR;
    }
    fdev.id := Trunc8(reg.devCounter);
    reg.devCounter := Add32(reg.devCounter, 1);
    reg.devices := [fdev] + reg.devices;
    var d := fdev.busData;
    var _ := Scanner.ScanForSubdevices(fdev, AxiBus.Read32Op(d), AxiBus.AddressSpaceSize(d));
    var _ := CreateDeviceNode(fdev);
    return fdev.id;
  }

  /** The list without the device `x`. */
  function Without(ds: seq<Device>, x: Device): (r: seq<Device>)
    ensures x !in r
    ensures |r| <= |ds|
  {
    if ds == [] then []
    else if ds[0] == x then Without(ds[1..], x)
    else [ds[0]] + Without(ds[1..], x)
  }

  /** Every other device of the list stays, and nothing else appears. */
  lemma {:induction false} WithoutKeepsOthers(ds: seq<Device>, x: Device, d: Device)
    ensures d in Without(ds, x) <==> d in ds && d != x
  {
    if ds != [] {
      WithoutKeepsOthers(ds[1..], x, d);
      assert ds == [ds[0]] + ds[1..];
    }
  }

  /** In a list that links `x` once, at position k, unlinking position k leaves the list without `x`. */
  lemma {:induction false} UnlinkIsWithout(ds: seq<Device>, k: nat)
    requires k < |ds|
    requires forall i, j :: 0 <= i < j < |ds| ==> ds[i] != ds[j]
    ensures ds[..k] + ds[k + 1..] == Without(ds, ds[k])
  {
    if k == 0 {
      assert ds[1..] == Without(ds[1..], ds[0]) by {
        WithoutAbsent(ds[1..], ds[0]);
      }
    } else {
      UnlinkIsWithout(ds[1..], k - 1);
      assert ds[..k] + ds[k + 1..] == [ds[0]] + (ds[1..][..k - 1] + ds[1..][k..]);
    }
  }

  /** Removing a device the list does not link changes nothing. */
  lemma {:induction false} WithoutAbsent(ds: seq<Device>, x: Device)
    requires x !in ds
    ensures Without(ds, x) == ds
  {
    if ds != [] {
      WithoutAbsent(ds[1..], x);
      assert ds == [ds[0]] + ds[1..];
    }
  }

  /** The position of a linked device in the list. */
  function IndexOf(ds: seq<Device>, x: Device): (k: nat)
    requires x in ds
    ensures k < |ds| && ds[k] == x
  {
    if ds[0] == x then 0 else 1 + IndexOf(ds[1..], x)
  }

  /**
   * flink_device_remove: unlinks the device from the list (its device node
   * is destroyed as well, which is not modelled).  NULL yields -1.
   */
  method DeviceRemove(reg: Registry, fdev: Device?) returns (r: int)
    requires reg.Valid()
    requires fdev != null ==> fdev in reg.devices
    modifies reg
    ensures reg.Valid()
    ensures fdev == null ==> r == UNKOWN_ERROR && unchanged(reg)
    ensures fdev != null ==>
      && r == 0
      && reg.devices == Without(old(reg.devices), fdev)
      && reg.devCounter == old(reg.devCounter)
  {
    if fdev == null {
      return UNKOWN_ERROR;
    }
    var k := IndexOf(reg.devices, fdev);
    UnlinkIsWithout(reg.devices, k);
    reg.devices := reg.devices[..k] + reg.devices[k + 1..];
    return 0;
  }

  // ############ properties ############

  /** A device just added is the one its id finds, and its char device finds it too. */
  lemma AddedIsFound(ds: seq<Device>, fdev: Device)
    ensures GetDeviceById([fdev] + ds, fdev.id) == Some(fdev)
    ensures GetDeviceByCdev([fdev] + ds, fdev.charDevice) == Some(fdev)
  {
  }

  /** A removed device is found neither by its id nor by its char device. */
  lemma RemovedIsNotFound(ds: seq<Device>, fdev: Device, id: u8, cdev: CharDevice?)
    ensures GetDeviceById(Without(ds, fdev), id) != Some(fdev)
    ensures GetDeviceByCdev(Without(ds, fdev), cdev) != Some(fdev)
  {
    var r := GetDeviceById(Without(ds, fdev), id);
    if r.Some? {
      var k :| FirstDeviceWithId(Without(ds, fdev), id, k) && Without(ds, fdev)[k] == r.value;
    }
  }

  /** The device counter after `k` more DeviceAdd calls, each incrementing it modulo 2^32. */
  function CounterAfter(c: u32, k: nat): u32
  {
    if k == 0 then c else Add32(CounterAfter(c, k - 1), 1)
  }

  /** One add: the truncated counter moves on as the u8 counter does, also across the 2^32 wrap. */
  lemma TruncInc(p: u32)
    ensures Trunc8(Add32(p, 1)) == Inc8(Trunc8(p))
  {
    var q := p / 0x100;
    assert p == 0x100 * q + Trunc8(p);
    if Trunc8(p) < 0xFF {
      assert p + 1 == 0x100 * q + (Trunc8(p) + 1);
    } else if p + 1 < TWO_TO_32 {
      assert p + 1 == 0x100 * (q + 1);
    }
  }

  /** The id the k-th later add hands out is the u8 id counter moved on k times. */
  lemma {:induction false} IdAfter(c: u32, k: nat)
    ensures Trunc8(CounterAfter(c, k)) == Counter(Trunc8(c), k)
  {
    if k > 0 {
      IdAfter(c, k - 1);
      TruncInc(CounterAfter(c, k - 1));
    }
  }

  /** Moving the u8 counter on a + j times is moving it on a times, then j times. */
  lemma {:induction false} CounterSplit(x: u8, a: nat, j: nat)
    ensures Counter(x, a + j) == Counter(Counter(x, a), j)
    decreases j
  {
    if j > 0 {
      CounterSplit(x, a, j - 1);
    }
  }

  /** Adds fewer than 256 apart hand out different ids. */
  lemma IdsDiffer(c: u32, a: nat, j: nat)
    requires 0 < j < 0x100
    ensures Trunc8(CounterAfter(c, a + j)) != Trunc8(CounterAfter(c, a))
  {
    IdAfter(c, a + j);
    IdAfter(c, a);
    CounterSplit(Trunc8(c), a, j);
    CounterValue(Counter(Trunc8(c), a), j);
  }

  /** Adds 256 apart hand out the same id. */
  lemma IdsRepeat(c: u32, a: nat)
    ensures Trunc8(CounterAfter(c, a + 0x100)) == Trunc8(CounterAfter(c, a))
  {
    IdAfter(c, a + 0x100);
    IdAfter(c, a);
    var y := Counter(Trunc8(c), a);
    CounterSplit(Trunc8(c), a, 0x100);
    assert Counter(y, 0x100) == y by {
      CounterValue(y, 0x100);
      assert ((y as int) + 0x100) % 0x100 == y;
    }
  }

  /**
   * Ids repeat after 256 adds.  `list` is the device list once 257
   * successive DeviceAdd calls, starting at counter `c`, have each put their
   * device at the head: position k holds the device of the (256 - k)-th
   * add.  The 256 newest devices are each found by their own id, and the
   * oldest, whose id the newest one took again, is found by no id at all.
   */
  lemma IdReuse(c: u32, list: seq<Device>)
    requires |list| > 0x100
    requires forall k :: 0 <= k <= 0x100 ==> list[k].id == Trunc8(CounterAfter(c, 0x100 - k))
    requires list[0] != list[0x100]
    ensures list[0].id == list[0x100].id
    ensures forall k :: 0 <= k < 0x100 ==> GetDeviceById(list, list[k].id) == Some(list[k])
    ensures forall id :: GetDeviceById(list, id) != Some(list[0x100])
  {
    IdsRepeat(c, 0);
    forall k | 0 <= k < 0x100
      ensures GetDeviceById(list, list[k].id) == Some(list[k])
    {
      forall j | 0 <= j < k
        ensures list[j].id != list[k].id
      {
        IdsDiffer(c, 0x100 - k, k - j);
      }
      FirstIsFound(list, list[k].id, k);
    }
    forall id
      ensures GetDeviceById(list, id) != Some(list[0x100])
    {
      var r := GetDeviceById(list, id);
      if r.Some? {
        var k :| FirstDeviceWithId(list, id, k) && list[k] == r.value;
        if 0 < k < 0x100 {
          IdsDiffer(c, 0, 0x100 - k);
        }
      }
    }
  }

  /** The device at the first position carrying `id` is the one lookup by id finds. */
  lemma FirstIsFound(ds: seq<Device>, id: u8, k: int)
    requires FirstDeviceWithId(ds, id, k)
    ensures GetDeviceById(ds, id) == Some(ds[k])
  {
    var r := GetDeviceById(ds, id);
    var k' :| FirstDeviceWithId(ds, id, k') && ds[k'] == r.value;
    assert k' == k;
  }
}
