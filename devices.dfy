/**
 * A flink device and the list of its subdevices (flink_core.c).
 *
 * The subdevice list is a sequence with the most recently added subdevice
 * first, as list_add links at the head.  Each subdevice takes the device's
 * u8 counter as its id, so ids run 0, 1, 2, ... and wrap after 256.
 */
module Devices {
  import opened Flink
  import AxiBus

  /** struct module*: the bus backend module that appropriated a device. */
  type ModuleId = nat

  /** struct cdev: the character device behind a device node; only its identity matters here. */
  class CharDevice {
    constructor ()
    {
    }
  }

  /** struct flink_device without its interrupt table. */
  class Device {
    var id: u8
    var nofSubdevices: u8
    /** fdev->subdevices, most recently added first. */
    var subdevices: seq<Subdevice>
    /** fdev->bus_data of the AXI backend, which its bus operations read. */
    var busData: AxiBus.BusData?
    const appropriatedModule: ModuleId
    var charDevice: CharDevice?

    /**
     * flink_device_init: a zeroed device remembering its module; the
     * backend then stores its bus data in it.
     */
    constructor (mod: ModuleId, busData: AxiBus.BusData?)
      ensures id == 0 && nofSubdevices == 0 && subdevices == [] && charDevice == null
      ensures appropriatedModule == mod && this.busData == busData
    {
      id := 0;
      nofSubdevices := 0;
      subdevices := [];
      appropriatedModule := mod;
      charDevice := null;
      this.busData := busData;
    }
  }

  // ############ lookup ############

  /** `k` is the first position of `subs` whose subdevice carries `id`. */
  predicate FirstWithId(subs: seq<Subdevice>, id: u8, k: int)
  {
    0 <= k < |subs| && subs[k].id == id && forall j :: 0 <= j < k ==> subs[j].id != id
  }

  /** The list walk of flink_get_subdevice_by_id: the first subdevice with the id, or NULL. */
  function FindSubdevice(subs: seq<Subdevice>, id: u8): (r: Option<Subdevice>)
    ensures r.None? <==> forall k :: 0 <= k < |subs| ==> subs[k].id != id
    ensures r.Some? ==> exists k :: FirstWithId(subs, id, k) && subs[k] == r.value
  {
    if subs == [] then None
    else if subs[0].id == id then Some(subs[0])
    else
      var r := FindSubdevice(subs[1..], id);
      assert r.Some? ==> exists k :: FirstWithId(subs[1..], id, k) && subs[1..][k] == r.value;
      assert r.Some? ==> exists k :: FirstWithId(subs, id, k) && subs[k] == r.value by {
        if r.Some? {
          var k :| FirstWithId(subs[1..], id, k) && subs[1..][k] == r.value;
          assert FirstWithId(subs, id, k + 1);
        }
      }
      r
  }

  /** flink_get_subdevice_by_id: NULL for a NULL device, otherwise the list walk. */
  function GetSubdeviceById(fdev: Device?, id: u8): (r: Option<Subdevice>)
    reads fdev
    ensures fdev == null ==> r.None?
    ensures fdev != null ==> r == FindSubdevice(fdev.subdevices, id)
  {
    if fdev == null then None else FindSubdevice(fdev.subdevices, id)
  }

  // ############ add and remove ############

  /**
   * flink_subdevice_add: the subdevice takes the device's counter as its
   * id, the counter is incremented (wrapping after 255) and the subdevice
   * is linked at the head of the list; the id is returned.  A NULL device
   * or subdevice yields -1.
   */
  method SubdeviceAdd(fdev: Device?, fsubdev: Option<Subdevice>) returns (r: int)
    modifies fdev
    ensures fdev == null || fsubdev.None? ==> r == UNKOWN_ERROR
    ensures fdev != null && fsubdev.None? ==> unchanged(fdev)
    ensures fdev != null && fsubdev.Some? ==>
      && r == old(fdev.nofSubdevices)
      && fdev.nofSubdevices == Inc8(old(fdev.nofSubdevices))
      && fdev.subdevices == [fsubdev.value.(id := old(fdev.nofSubdevices))] + old(fdev.subdevices)
      && unchanged(fdev`id, fdev`busData, fdev`charDevice)
  {
    if fdev != null && fsubdev.Some? {
      var s := fsubdev.value.(id := fdev.nofSubdevices);
      fdev.nofSubdevices := Inc8(fdev.nofSubdevices);
      fdev.subdevices := [s] + fdev.subdevices;
      return s.id;
    }
    return UNKOWN_ERROR;
  }

  /**
   * flink_subdevice_remove: unlinks one subdevice of `fdev`, named by its
   * position in the list (None stands for a NULL subdevice and yields -1).
   * The counter is left alone.
   */
  method SubdeviceRemove(fdev: Device, fsubdev: Option<nat>) returns (r: int)
    requires fsubdev.Some? ==> fsubdev.value < |fdev.subdevices|
    modifies fdev
    ensures fsubdev.None? ==> r == UNKOWN_ERROR && unchanged(fdev)
    ensures fsubdev.Some? ==>
      && r == 0
      && fdev.subdevices == old(fdev.subdevices[..fsubdev.value] + fdev.subdevices[fsubdev.value + 1..])
      && unchanged(fdev`id, fdev`nofSubdevices, fdev`busData, fdev`charDevice)
  {
    if fsubdev.Some? {
      var k := fsubdev.value;
      fdev.subdevices := fdev.subdevices[..k] + fdev.subdevices[k + 1..];
      return 0;
    }
    return UNKOWN_ERROR;
  }

  /**
   * flink_device_delete: removes every subdevice, walking the list from its
   * head, before the device itself is freed.  NULL yields -1.
   */
  method DeviceDelete(fdev: Device?) returns (r: int)
    modifies fdev
    ensures fdev == null ==> r == UNKOWN_ERROR
    ensures fdev != null ==>
      && r == 0
      && fdev.subdevices == []
      && unchanged(fdev`id, fdev`nofSubdevices, fdev`busData, fdev`charDevice)
  {
    if fdev == null {
      return UNKOWN_ERROR;
    }
    ghost var i := 0;
    while fdev.subdevices != []
      invariant 0 <= i <= |old(fdev.subdevices)|
      invariant fdev.subdevices == old(fdev.subdevices)[i..]
      invariant unchanged(fdev`id, fdev`nofSubdevices, fdev`busData, fdev`charDevice)
      decreases |fdev.subdevices|
    {
      var _ := SubdeviceRemove(fdev, Some(0));
      i := i + 1;
    }
    return 0;
  }

  // ############ the list that a run of adds builds ############

  /** The u8 counter after `k` increments from `c`. */
  function Counter(c: u8, k: nat): u8
  {
    if k == 0 then c else Inc8(Counter(c, k - 1))
  }

  /** k increments of the u8 counter add k modulo 256. */
  lemma {:induction false} CounterValue(c: u8, k: nat)
    ensures Counter(c, k) == (c + k) % 0x100
  {
    if k > 0 {
      CounterValue(c, k - 1);
      assert Inc8((c + k - 1) % 0x100) == (c + k) % 0x100;
    }
  }

  /**
   * The subdevice list after adding `hs` in order to an empty list whose
   * counter starts at `c`: the last one added first, the k-th added
   * carrying the id the counter held before it, Counter(c, k).
   */
  function Stacked(hs: seq<Subdevice>, c: u8): seq<Subdevice>
    decreases |hs|
  {
    if hs == [] then []
    else [hs[|hs| - 1].(id := Counter(c, |hs| - 1))] + Stacked(hs[..|hs| - 1], c)
  }

  /** One more add puts the new subdevice, with the next id, in front. */
  lemma StackedSnoc(hs: seq<Subdevice>, h: Subdevice, c: u8)
    ensures Stacked(hs + [h], c) == [h.(id := Counter(c, |hs|))] + Stacked(hs, c)
  {
    assert (hs + [h])[..|hs|] == hs;
  }

  /** Position j of the built list holds the (|hs|-1-j)-th subdevice added, with its id. */
  lemma {:induction false} StackedAt(hs: seq<Subdevice>, c: u8, j: int)
    requires 0 <= j < |hs|
    ensures |Stacked(hs, c)| == |hs|
    ensures Stacked(hs, c)[j] == hs[|hs| - 1 - j].(id := Counter(c, |hs| - 1 - j))
    decreases |hs|
  {
    StackedLength(hs, c);
    if j > 0 {
      StackedAt(hs[..|hs| - 1], c, j - 1);
    }
  }

  lemma {:induction false} StackedLength(hs: seq<Subdevice>, c: u8)
    ensures |Stacked(hs, c)| == |hs|
    decreases |hs|
  {
    if hs != [] {
      StackedLength(hs[..|hs| - 1], c);
    }
  }

  /**
   * Ids are contiguous from 0: after at most 256 adds to a fresh device,
   * the subdevice added k-th is found under id k, and an id no add reached
   * is not found.
   */
  lemma {:induction false} FreshIdsFound(hs: seq<Subdevice>, id: u8)
    requires |hs| <= MAX_NOF_SUBDEVICES
    ensures id < |hs| ==> FindSubdevice(Stacked(hs, 0), id) == Some(hs[id].(id := id))
    ensures id >= |hs| ==> FindSubdevice(Stacked(hs, 0), id) == None
    decreases |hs|
  {
    if hs != [] {
      var n := |hs|;
      var init := hs[..n - 1];
      FreshIdsFound(init, id);
      var top := hs[n - 1].(id := n - 1);
      FreshTop(hs);
      FindFirst(top, Stacked(init, 0), id);
      if id < n - 1 {
        assert init[id] == hs[id];
      }
    }
  }

  /** Below 256 adds to a fresh device, the newest subdevice heads the list with id equal to its position. */
  lemma FreshTop(hs: seq<Subdevice>)
    requires 0 < |hs| <= MAX_NOF_SUBDEVICES
    ensures Stacked(hs, 0) == [hs[|hs| - 1].(id := |hs| - 1)] + Stacked(hs[..|hs| - 1], 0)
  {
    var n := |hs|;
    assert Counter(0, n - 1) == n - 1 by {
      CounterValue(0, n - 1);
    }
    assert Stacked(hs, 0) == [hs[n - 1].(id := Counter(0, n - 1))] + Stacked(hs[..n - 1], 0);
  }

  /** The walk looks at the head first and goes on with the rest. */
  lemma FindFirst(h: Subdevice, t: seq<Subdevice>, id: u8)
    ensures FindSubdevice([h] + t, id) == if h.id == id then Some(h) else FindSubdevice(t, id)
  {
    assert ([h] + t)[1..] == t;
  }
}
