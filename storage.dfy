// The device list kept in the key-value store (utils/storage.ts): one key,
// "@rvolution_devices", holding the whole list. addDevice replaces the first
// record with the same address or appends; removeDevice drops every record
// with the given id. The store's contents are a map from key to list, with
// two environment flags saying whether reads and writes fail.

module Storage {
  import opened Types

  const DevicesKey: string := "@rvolution_devices"

  // ---------------------------------------------------------------------
  // The list operations

  /** `devices.findIndex(d => d.ipAddress === ip)`. */
  function FindByAddress(devices: seq<Device>, ip: string): (k: int)
    ensures -1 <= k < |devices|
    ensures k >= 0 ==> devices[k].ipAddress == ip && forall j :: 0 <= j < k ==> devices[j].ipAddress != ip
    ensures k == -1 <==> forall j :: 0 <= j < |devices| ==> devices[j].ipAddress != ip
  {
    if devices == [] then -1
    else if devices[0].ipAddress == ip then 0
    else
      var k := FindByAddress(devices[1..], ip);
      if k < 0 then -1 else k + 1
  }

  /** The list addDevice writes: the first record with the same address replaced, or the record appended. */
  function Upsert(devices: seq<Device>, device: Device): seq<Device> {
    var k := FindByAddress(devices, device.ipAddress);
    if k >= 0 then devices[k := device] else devices + [device]
  }

  /** `devices.filter(d => d.id !== id)`. */
  function WithoutId(devices: seq<Device>, id: string): seq<Device> {
    if devices == [] then []
    else (if devices[0].id != id then [devices[0]] else []) + WithoutId(devices[1..], id)
  }

  predicate HasAddress(devices: seq<Device>, ip: string) {
    exists j :: 0 <= j < |devices| && devices[j].ipAddress == ip
  }

  /** No two records share an address. */
  predicate UniqueAddresses(devices: seq<Device>) {
    forall i, j :: 0 <= i < j < |devices| ==> devices[i].ipAddress != devices[j].ipAddress
  }

  /** A record with a new address is appended at the end: one more entry, the others untouched. */
  lemma UpsertAppends(devices: seq<Device>, device: Device)
    requires !HasAddress(devices, device.ipAddress)
    ensures Upsert(devices, device) == devices + [device]
    ensures |Upsert(devices, device)| == |devices| + 1
  {
  }

  /**
   * A record whose address is already stored overwrites the first record with
   * that address; the length and every other position are unchanged.
   */
  lemma UpsertReplacesFirst(devices: seq<Device>, device: Device, k: nat)
    requires k < |devices| && devices[k].ipAddress == device.ipAddress
    requires forall j :: 0 <= j < k ==> devices[j].ipAddress != device.ipAddress
    ensures |Upsert(devices, device)| == |devices|
    ensures Upsert(devices, device)[k] == device
    ensures forall j :: 0 <= j < |devices| && j != k ==> Upsert(devices, device)[j] == devices[j]
  {
    assert FindByAddress(devices, device.ipAddress) == k;
  }

  /** Adding the same record twice gives the list adding it once gives. */
  lemma UpsertIdempotent(devices: seq<Device>, device: Device)
    ensures Upsert(Upsert(devices, device), device) == Upsert(devices, device)
  {
    var once := Upsert(devices, device);
    var k := FindByAddress(devices, device.ipAddress);
    if k >= 0 {
      UpsertReplacesFirst(once, device, k);
    } else {
      UpsertReplacesFirst(once, device, |devices|);
    }
  }

  /** After the upsert the record is in the list. */
  lemma UpsertContains(devices: seq<Device>, device: Device)
    ensures device in Upsert(devices, device)
  {
    var k := FindByAddress(devices, device.ipAddress);
    if k >= 0 {
      assert Upsert(devices, device)[k] == device;
    }
  }

  /** A record with another address survives an upsert. */
  lemma UpsertKeepsOthers(devices: seq<Device>, device: Device, e: Device)
    requires e in devices && e.ipAddress != device.ipAddress
    ensures e in Upsert(devices, device)
  {
    var j :| 0 <= j < |devices| && devices[j] == e;
    assert Upsert(devices, device)[j] == e;
  }

  /** An upsert keeps a list free of duplicate addresses free of them. */
  lemma UpsertKeepsAddressesUnique(devices: seq<Device>, device: Device)
    requires UniqueAddresses(devices)
    ensures UniqueAddresses(Upsert(devices, device))
  {
    var r := Upsert(devices, device);
    var k := FindByAddress(devices, device.ipAddress);
    if k >= 0 {
      forall i, j | 0 <= i < j < |r| ensures r[i].ipAddress != r[j].ipAddress {
        if i == k {
          assert r[j] == devices[j];
          assert devices[k].ipAddress == device.ipAddress;
        } else if j == k {
          assert r[i] == devices[i];
          assert devices[k].ipAddress == device.ipAddress;
        } else {
          assert r[i] == devices[i] && r[j] == devices[j];
        }
      }
    } else {
      forall i, j | 0 <= i < j < |r| ensures r[i].ipAddress != r[j].ipAddress {
        if j == |devices| {
          assert r[i] == devices[i];
        } else {
          assert r[i] == devices[i] && r[j] == devices[j];
        }
      }
    }
  }

  /** A record survives the removal exactly when it was there and has another id. */
  lemma {:induction false} WithoutIdMembers(devices: seq<Device>, id: string, d: Device)
    ensures d in WithoutId(devices, id) <==> d in devices && d.id != id
  {
    if devices != [] {
      WithoutIdMembers(devices[1..], id, d);
      assert devices == [devices[0]] + devices[1..];
    }
  }

  /** The removal works piecewise, so the records that stay keep their order. */
  lemma {:induction false} WithoutIdAppend(a: seq<Device>, b: seq<Device>, id: string)
    ensures WithoutId(a + b, id) == WithoutId(a, id) + WithoutId(b, id)
  {
    if a != [] {
      assert (a + b)[1..] == a[1..] + b;
      WithoutIdAppend(a[1..], b, id);
    } else {
      assert a + b == b;
    }
  }

  /** Removing an id no record carries leaves the list as it was. */
  lemma {:induction false} WithoutAbsentId(devices: seq<Device>, id: string)
    requires forall j :: 0 <= j < |devices| ==> devices[j].id != id
    ensures WithoutId(devices, id) == devices
  {
    if devices != [] {
      WithoutAbsentId(devices[1..], id);
      assert devices == [devices[0]] + devices[1..];
    }
  }

  /** The removal never lengthens the list, and shortens it when the id is present. */
  lemma {:induction false} WithoutIdShrinks(devices: seq<Device>, id: string)
    ensures |WithoutId(devices, id)| <= |devices|
    ensures (exists j :: 0 <= j < |devices| && devices[j].id == id) ==> |WithoutId(devices, id)| < |devices|
  {
    if devices != [] {
      WithoutIdShrinks(devices[1..], id);
      if exists j :: 0 <= j < |devices| && devices[j].id == id {
        var j :| 0 <= j < |devices| && devices[j].id == id;
        if j > 0 {
          assert devices[1..][j - 1].id == id;
        }
      }
    }
  }

  // ---------------------------------------------------------------------
  // The store as values

  /**
   * loadDevices: the stored list, or [] when nothing is stored under the key
   * or the read fails (the error is caught, never thrown).
   */
  function Loaded(entries: map<string, seq<Device>>, readFails: bool): seq<Device> {
    if readFails || DevicesKey !in entries then [] else entries[DevicesKey]
  }

  /** The store after saveDevices(devices): the key rewritten, or nothing changed when the write fails. */
  function Saved(entries: map<string, seq<Device>>, writeFails: bool, devices: seq<Device>): map<string, seq<Device>> {
    if writeFails then entries else entries[DevicesKey := devices]
  }

  /** Saving a list and then loading it gives back that list. */
  lemma SaveLoadRoundTrip(entries: map<string, seq<Device>>, devices: seq<Device>)
    ensures Loaded(Saved(entries, false, devices), false) == devices
  {
  }

  /** Saving touches no other key. */
  lemma SaveKeepsOtherKeys(entries: map<string, seq<Device>>, writeFails: bool, devices: seq<Device>, key: string)
    requires key != DevicesKey
    ensures key in Saved(entries, writeFails, devices) <==> key in entries
    ensures key in entries ==> Saved(entries, writeFails, devices)[key] == entries[key]
  {
  }

  /**
   * When the read fails but the write succeeds, addDevice replaces the whole
   * stored list by the one record: loadDevices reports the failure as [].
   */
  lemma AddAfterFailedReadOverwrites(entries: map<string, seq<Device>>, device: Device)
    ensures Saved(entries, false, Upsert(Loaded(entries, true), device)) == entries[DevicesKey := [device]]
  {
    assert [] + [device] == [device];
  }

  /** An empty store and a failing read both load as the empty list. */
  lemma LoadedDefaults(entries: map<string, seq<Device>>)
    ensures Loaded(map[], false) == []
    ensures Loaded(entries, true) == []
  {
  }

  /**
   * The AsyncStorage key-value store as the app sees it. `readFails` and
   * `writeFails` are set by the environment: when true, every getItem
   * (respectively setItem) rejects.
   */
  class DeviceStore {
    var entries: map<string, seq<Device>>
    var readFails: bool
    var writeFails: bool

    constructor (entries: map<string, seq<Device>>, readFails: bool, writeFails: bool)
      ensures this.entries == entries && this.readFails == readFails && this.writeFails == writeFails
    {
      this.entries := entries;
      this.readFails := readFails;
      this.writeFails := writeFails;
    }

    /** The list loadDevices would give now. */
    function Current(): seq<Device>
      reads this
    {
      Loaded(entries, readFails)
    }

    /** saveDevices: one write of the whole list; a failed write is rethrown. */
    method SaveDevices(devices: seq<Device>) returns (outcome: Outcome)
      modifies this`entries
      ensures outcome == (if writeFails then Threw else Done)
      ensures entries == Saved(old(entries), writeFails, devices)
    {
      if writeFails {
        outcome := Threw;
      } else {
        entries := entries[DevicesKey := devices];
        outcome := Done;
      }
    }

    /** loadDevices: never throws. */
    method LoadDevices() returns (devices: seq<Device>)
      ensures devices == Loaded(entries, readFails)
    {
      if readFails || DevicesKey !in entries {
        devices := [];
      } else {
        devices := entries[DevicesKey];
      }
    }

    /**
     * addDevice: load, replace the record with the same address in place or
     * push the new one, save; a failed save is rethrown.
     */
    method AddDevice(device: Device) returns (outcome: Outcome)
      modifies this`entries
      ensures outcome == (if writeFails then Threw else Done)
      ensures entries == Saved(old(entries), writeFails, Upsert(Loaded(old(entries), readFails), device))
    {
      var devices := LoadDevices();
      var existingIndex := FindByAddress(devices, device.ipAddress);
      if existingIndex >= 0 {
        devices := devices[existingIndex := device];
      } else {
        devices := devices + [device];
      }
      outcome := SaveDevices(devices);
    }

    /** removeDevice: load, drop every record with the id, save; a failed save is rethrown. */
    method RemoveDevice(deviceId: string) returns (outcome: Outcome)
      modifies this`entries
      ensures outcome == (if writeFails then Threw else Done)
      ensures entries == Saved(old(entries), writeFails, WithoutId(Loaded(old(entries), readFails), deviceId))
    {
      var devices := LoadDevices();
      var filteredDevices := WithoutId(devices, deviceId);
      outcome := SaveDevices(filteredDevices);
    }
  }
}
