/**
 * The teardown of the AXI bus driver (zynq/flink_axi.c, flink_axi_remove).
 *
 * Walking the device list from its head, every device this module
 * appropriated is unlinked and deleted; devices of other bus modules stay
 * in the list, in their order.  Unmapping and releasing the memory window
 * and freeing the bus data are not modelled.
 */
module AxiDriver {
  import opened Flink
  import AxiBus
  import opened Devices
  import opened DeviceList

  /** The devices of `ds` that module `m` did not appropriate, in list order. */
  function Others(ds: seq<Device>, m: ModuleId): (r: seq<Device>)
    ensures |r| <= |ds|
    decreases |ds|
  {
    if ds == [] then []
    else Others(ds[..|ds| - 1], m) + (if ds[|ds| - 1].appropriatedModule == m then [] else [ds[|ds| - 1]])
  }

  /** Visiting a device of another module keeps it, after the ones kept before. */
  lemma KeepStep(list: seq<Device>, i: nat, m: ModuleId)
    requires i < |list| && list[i].appropriatedModule != m
    ensures Others(list[..i + 1], m) + list[i + 1..] == Others(list[..i], m) + list[i..]
  {
    assert list[..i + 1][..i] == list[..i];
    assert list[i..] == [list[i]] + list[i + 1..];
  }

  /** Removing a device from a concatenation removes it from both parts. */
  lemma {:induction false} WithoutConcat(a: seq<Device>, b: seq<Device>, x: Device)
    ensures Without(a + b, x) == Without(a, x) + Without(b, x)
  {
    if a == [] {
      assert a + b == b;
    } else {
      var ab := a + b;
      assert ab[0] == a[0] && ab[1..] == a[1..] + b;
      WithoutConcat(a[1..], b, x);
      if a[0] == x {
        assert Without(ab, x) == Without(a[1..] + b, x);
        assert Without(a, x) == Without(a[1..], x);
      } else {
        assert Without(ab, x) == [a[0]] + Without(a[1..] + b, x);
        assert Without(a, x) == [a[0]] + Without(a[1..], x);
      }
    }
  }

  /**
   * The list the walk has produced after position i: the kept devices
   * before i, then the devices not yet visited.
   */
  lemma RemoveStep(list: seq<Device>, i: nat, m: ModuleId)
    requires i < |list|
    requires Distinct(list)
    requires list[i].appropriatedModule == m
    ensures Without(Others(list[..i], m) + list[i..], list[i]) == Others(list[..i + 1], m) + list[i + 1..]
  {
    var x := list[i];
    assert list[..i + 1][..i] == list[..i];
    assert list[i..] == [x] + list[i + 1..];
    assert x !in Others(list[..i], m) by {
      OthersFilter(list[..i], m, x);
    }
    assert x !in list[i + 1..];
    WithoutConcat(Others(list[..i], m), list[i..], x);
    WithoutConcat([x], list[i + 1..], x);
    WithoutAbsent(Others(list[..i], m), x);
    WithoutAbsent(list[i + 1..], x);
  }

  /** No device occurs twice. */
  ghost predicate Distinct(ds: seq<Device>)
  {
    forall p, q :: 0 <= p < q < |ds| ==> ds[p] != ds[q]
  }

  /** The fields of a device that the teardown reads or changes. */
  datatype DeviceState = DeviceState(subdevices: seq<Subdevice>, id: u8, nofSubdevices: u8,
                                     busData: AxiBus.BusData?, charDevice: CharDevice?)

  function StateOf(fdev: Device): DeviceState
    reads fdev
  {
    DeviceState(fdev.subdevices, fdev.id, fdev.nofSubdevices, fdev.busData, fdev.charDevice)
  }

  /** `fdev` still carries the id, subdevice count, bus data and character device of `was`. */
  predicate SameIdentity(fdev: Device, was: DeviceState)
    reads fdev
  {
    fdev.id == was.id && fdev.nofSubdevices == was.nofSubdevices && fdev.busData == was.busData
    && fdev.charDevice == was.charDevice
  }

  /**
   * The state of a listed device, which was `was` before the walk: once
   * `visited`, a device of module `m` has lost its subdevices; any other
   * device, and every device not yet visited, keeps them; all keep their
   * identity.
   */
  predicate Teardown(fdev: Device, m: ModuleId, visited: bool, was: DeviceState)
    reads fdev
  {
    && (visited && fdev.appropriatedModule == m ==> fdev.subdevices == [])
    && (!visited || fdev.appropriatedModule != m ==> fdev.subdevices == was.subdevices)
    && SameIdentity(fdev, was)
  }

  /**
   * One visit of the walk: a device this module appropriated is unlinked
   * by flink_device_remove and emptied by flink_device_delete; any other
   * device is passed over.
   */
  method Visit(reg: Registry, list: seq<Device>, i: nat, m: ModuleId, ghost was: seq<DeviceState>)
    requires reg.Valid() && Distinct(list)
    requires i < |list| && |was| == |list|
    requires reg.devices == Others(list[..i], m) + list[i..]
    requires forall k :: 0 <= k < |list| ==> Teardown(list[k], m, k < i, was[k])
    modifies reg, list[i]
    ensures reg.Valid()
    ensures reg.devices == Others(list[..i + 1], m) + list[i + 1..]
    ensures reg.devCounter == old(reg.devCounter)
    ensures forall k :: 0 <= k < |list| ==> Teardown(list[k], m, k < i + 1, was[k])
  {
    var fdev := list[i];
    if fdev.appropriatedModule == m {
      assert fdev in reg.devices by {
        assert reg.devices[|Others(list[..i], m)|] == fdev;
      }
      RemoveStep(list, i, m);
      var _ := DeviceRemove(reg, fdev);
      var _ := DeviceDelete(fdev);
    } else {
      KeepStep(list, i, m);
    }
  }

  /**
   * flink_axi_remove: removes and deletes exactly the devices that
   * `thisModule` appropriated; returns 0.
   */
  method AxiRemove(reg: Registry, thisModule: ModuleId) returns (r: int)
    requires reg.Valid()
    modifies reg, reg.devices
    ensures r == 0 && reg.Valid()
    ensures reg.devices == Others(old(reg.devices), thisModule)
    ensures reg.devCounter == old(reg.devCounter)
    ensures forall k :: 0 <= k < |old(reg.devices)| && old(reg.devices)[k].appropriatedModule == thisModule ==>
      old(reg.devices)[k].subdevices == []
    ensures forall k :: 0 <= k < |old(reg.devices)| && old(reg.devices)[k].appropriatedModule != thisModule ==>
      old(reg.devices)[k].subdevices == old(reg.devices[k].subdevices)
    ensures forall k :: 0 <= k < |old(reg.devices)| ==> SameIdentity(old(reg.devices)[k], old(StateOf(reg.devices[k])))
  {
    var list := reg.devices;
    ghost var was := seq(|list|, k requires 0 <= k < |list| reads list => StateOf(list[k]));
    Sweep(reg, list, thisModule, was);
    return 0;
  }

  /** The walk of flink_axi_remove over `list`, the device list it starts from. */
  method Sweep(reg: Registry, list: seq<Device>, m: ModuleId, ghost was: seq<DeviceState>)
    requires reg.Valid() && reg.devices == list && |was| == |list|
    requires forall k :: 0 <= k < |list| ==> Teardown(list[k], m, false, was[k])
    modifies reg, list
    ensures reg.Valid()
    ensures reg.devices == Others(list, m)
    ensures reg.devCounter == old(reg.devCounter)
    ensures forall k :: 0 <= k < |list| ==> Teardown(list[k], m, true, was[k])
  {
    var i := 0;
    while i < |list|
      invariant 0 <= i <= |list| && Distinct(list)
      invariant reg.Valid()
      invariant reg.devices == Others(list[..i], m) + list[i..]
      invariant reg.devCounter == old(reg.devCounter)
      invariant forall k :: 0 <= k < |list| ==> Teardown(list[k], m, k < i, was[k])
    {
      Visit(reg, list, i, m, was);
      i := i + 1;
    }
    assert list[..i] == list;
  }

  /** Others is the filter of the list by owner: a device is kept exactly when the list links it and another module appropriated it. */
  lemma {:induction false} OthersFilter(ds: seq<Device>, m: ModuleId, d: Device)
    ensures d in Others(ds, m) <==> d in ds && d.appropriatedModule != m
    decreases |ds|
  {
    if ds != [] {
      var init := ds[..|ds| - 1];
      OthersFilter(init, m, d);
      assert ds == init + [ds[|ds| - 1]];
    }
  }

  /** A list holding only other modules' devices is kept whole, in its order. */
  lemma {:induction false} OthersKeepsAll(ds: seq<Device>, m: ModuleId)
    requires forall k :: 0 <= k < |ds| ==> ds[k].appropriatedModule != m
    ensures Others(ds, m) == ds
    decreases |ds|
  {
    if ds != [] {
      var init := ds[..|ds| - 1];
      OthersKeepsAll(init, m);
      assert ds == init + [ds[|ds| - 1]];
    }
  }
}
