// The device list screen (screens/DevicesScreen.tsx): loading the stored
// list, the status refresh, the network scan with its two callbacks, the
// deletion and the press on a device. The component's state is a class whose
// fields are the React state variables; the store is the shared DeviceStore.

module DevicesScreen {
  import opened Types
  import opened NetworkDiscovery
  import opened Storage

  // ---------------------------------------------------------------------
  // Status refresh

  /** `{...device, isOnline, lastSeen: isOnline ? Date.now() : device.lastSeen}` with `now` the clock value. */
  function Refreshed(net: Network, device: Device, now: int): Device {
    var isOnline := CheckDeviceAvailability(net, device.ipAddress, device.port);
    device.(isOnline := isOnline, lastSeen := if isOnline then Some(now) else device.lastSeen)
  }

  /**
   * The list checkDevicesStatus computes: every device refreshed, in list
   * order; `clock[i]` is the time read for device i.
   */
  function RefreshAll(net: Network, devices: seq<Device>, clock: seq<int>): seq<Device>
    requires |clock| == |devices|
  {
    seq(|devices|, i requires 0 <= i < |devices| => Refreshed(net, devices[i], clock[i]))
  }

  /** The refresh keeps the length and the order, and every field but `isOnline` and `lastSeen`. */
  lemma RefreshKeepsOtherFields(net: Network, devices: seq<Device>, clock: seq<int>)
    requires |clock| == |devices|
    ensures |RefreshAll(net, devices, clock)| == |devices|
    ensures forall i :: 0 <= i < |devices| ==>
      RefreshAll(net, devices, clock)[i].(isOnline := devices[i].isOnline, lastSeen := devices[i].lastSeen) == devices[i]
  {
  }

  /** Each device is online after the refresh exactly when its own `/status` answers ok. */
  lemma RefreshOnlineIffAvailable(net: Network, devices: seq<Device>, clock: seq<int>)
    requires |clock| == |devices|
    ensures forall i :: 0 <= i < |devices| ==>
      (RefreshAll(net, devices, clock)[i].isOnline <==> RespondsOk(net, StatusUrl(devices[i].ipAddress, devices[i].port)))
  {
  }

  /** `lastSeen` becomes the time read exactly for the devices found online; the others keep theirs, absent or not. */
  lemma RefreshLastSeen(net: Network, devices: seq<Device>, clock: seq<int>)
    requires |clock| == |devices|
    ensures forall i :: 0 <= i < |devices| ==>
      RefreshAll(net, devices, clock)[i].lastSeen ==
        if RefreshAll(net, devices, clock)[i].isOnline then Some(clock[i]) else devices[i].lastSeen
  {
  }

  /** The refresh keeps a list free of duplicate addresses free of them, and keeps every id. */
  lemma RefreshKeepsKeys(net: Network, devices: seq<Device>, clock: seq<int>)
    requires |clock| == |devices|
    ensures UniqueAddresses(devices) ==> UniqueAddresses(RefreshAll(net, devices, clock))
    ensures forall i :: 0 <= i < |devices| ==> RefreshAll(net, devices, clock)[i].id == devices[i].id
  {
  }

  // ---------------------------------------------------------------------
  // Pressing a device

  /** What a press on a device card does: open the control screen for it, or show the offline alert. */
  datatype PressAction = Navigate(device: Device) | OfflineAlert

  function HandlePress(device: Device): PressAction {
    if device.isOnline then Navigate(device) else OfflineAlert
  }

  /** After a refresh, a press opens the control screen exactly for the devices that answered, and for that device. */
  lemma PressAfterRefresh(net: Network, devices: seq<Device>, clock: seq<int>, i: nat)
    requires |clock| == |devices| && i < |devices|
    ensures var pressed := RefreshAll(net, devices, clock)[i];
      (HandlePress(pressed).Navigate? <==> RespondsOk(net, StatusUrl(devices[i].ipAddress, devices[i].port))) &&
      (HandlePress(pressed).Navigate? ==> HandlePress(pressed).device == pressed)
  {
  }

  // ---------------------------------------------------------------------
  // The scan callbacks

  /** How handleScanNetwork ends: not confirmed, "n devices found", or the "no device found" alert. */
  datatype ScanReport = NotStarted | Found(count: nat) | NoneFound

  /** The progress state after a run of onProgress calls: the last numerator, 0 before any. */
  function LastProgress(steps: seq<nat>): nat {
    if steps == [] then 0 else steps[|steps| - 1]
  }

  /** The list after addDevice was applied to each record of `ds`, in order, with no failure. */
  function UpsertAll(devices: seq<Device>, ds: seq<Device>): seq<Device> {
    if ds == [] then devices else Upsert(UpsertAll(devices, ds[..|ds| - 1]), ds[|ds| - 1])
  }

  /** The store after addDevice was applied to each record of `ds`, in order. */
  function AddAll(entries: map<string, seq<Device>>, readFails: bool, writeFails: bool, ds: seq<Device>):
    map<string, seq<Device>>
  {
    if ds == [] then entries
    else
      var before := AddAll(entries, readFails, writeFails, ds[..|ds| - 1]);
      Saved(before, writeFails, Upsert(Loaded(before, readFails), ds[|ds| - 1]))
  }

  lemma AddAllSnoc(entries: map<string, seq<Device>>, readFails: bool, writeFails: bool, ds: seq<Device>, d: Device)
    ensures AddAll(entries, readFails, writeFails, ds + [d]) ==
      var before := AddAll(entries, readFails, writeFails, ds);
      Saved(before, writeFails, Upsert(Loaded(before, readFails), d))
  {
    assert (ds + [d])[..|ds|] == ds;
  }

  lemma EventsSnoc(events: seq<ScanEvent>, e: ScanEvent)
    ensures FoundDevices(events + [e]) == FoundDevices(events) + FoundIn(e)
    ensures ProgressSteps(events + [e]) == ProgressSteps(events) + ProgressIn(e)
  {
    assert (events + [e])[..|events|] == events;
  }

  /** With reads and writes working, the adds leave in the store the list the upserts give. */
  lemma {:induction false} AddAllLoads(entries: map<string, seq<Device>>, ds: seq<Device>)
    ensures Loaded(AddAll(entries, false, false, ds), false) == UpsertAll(Loaded(entries, false), ds)
  {
    if ds != [] {
      AddAllLoads(entries, ds[..|ds| - 1]);
    }
  }

  /** When every write fails the adds change nothing. */
  lemma {:induction false} AddAllFailingWrites(entries: map<string, seq<Device>>, readFails: bool, ds: seq<Device>)
    ensures AddAll(entries, readFails, true, ds) == entries
  {
    if ds != [] {
      AddAllFailingWrites(entries, readFails, ds[..|ds| - 1]);
    }
  }

  /** Upserting records with pairwise distinct addresses leaves every one of them in the list. */
  lemma {:induction false} UpsertAllContains(devices: seq<Device>, ds: seq<Device>)
    requires forall j, k :: 0 <= j < k < |ds| ==> ds[j].ipAddress != ds[k].ipAddress
    ensures forall j :: 0 <= j < |ds| ==> ds[j] in UpsertAll(devices, ds)
  {
    if ds != [] {
      var init := ds[..|ds| - 1];
      var last := ds[|ds| - 1];
      UpsertAllContains(devices, init);
      forall j | 0 <= j < |ds| ensures ds[j] in UpsertAll(devices, ds) {
        if j == |ds| - 1 {
          UpsertContains(UpsertAll(devices, init), last);
        } else {
          assert init[j] == ds[j];
          UpsertKeepsOthers(UpsertAll(devices, init), last, ds[j]);
        }
      }
    }
  }

  /**
   * With reads and writes working, every record a scan returns is in the
   * stored list afterwards: the scan's addresses are distinct, so no later
   * upsert overwrites an earlier one.
   */
  lemma ScanStoresEveryFound(net: Network, clock: seq<int>, entries: map<string, seq<Device>>)
    requires |clock| == HostCount
    ensures var found := Sweep(net, clock, HostCount);
      forall d :: d in found ==> d in Loaded(AddAll(entries, false, false, found), false)
  {
    var found := Sweep(net, clock, HostCount);
    SweepIdsDistinct(net, clock);
    UpsertAllContains(Loaded(entries, false), found);
    AddAllLoads(entries, found);
  }

  /** Every stored record keeps its place unless a scanned record with the same address replaces it. */
  lemma {:induction false} UpsertAllKeepsOthers(devices: seq<Device>, ds: seq<Device>, e: Device)
    requires e in devices && forall j :: 0 <= j < |ds| ==> ds[j].ipAddress != e.ipAddress
    ensures e in UpsertAll(devices, ds)
  {
    if ds != [] {
      UpsertAllKeepsOthers(devices, ds[..|ds| - 1], e);
      UpsertKeepsOthers(UpsertAll(devices, ds[..|ds| - 1]), ds[|ds| - 1], e);
    }
  }

  /** What the scan callbacks touch: the found counter, the progress numerator and the store. */
  datatype ScanState = ScanState(found: nat, progress: nat, entries: map<string, seq<Device>>)

  /** One callback: onDeviceFound counts the record and adds it to the store; onProgress records the numerator. */
  function Step(st: ScanState, readFails: bool, writeFails: bool, event: ScanEvent): ScanState {
    match event
    case DeviceFound(d) => st.(found := st.found + 1, entries := Saved(st.entries, writeFails, Upsert(Loaded(st.entries, readFails), d)))
    case Progress(i) => st.(progress := i)
  }

  /** The callbacks of an event log applied in order. */
  function Replay(st: ScanState, readFails: bool, writeFails: bool, events: seq<ScanEvent>): ScanState {
    if events == [] then st
    else Step(Replay(st, readFails, writeFails, events[..|events| - 1]), readFails, writeFails, events[|events| - 1])
  }

  lemma ReplayPrefixStep(st: ScanState, readFails: bool, writeFails: bool, events: seq<ScanEvent>, k: nat)
    requires k < |events|
    ensures Replay(st, readFails, writeFails, events[..k + 1]) ==
      Step(Replay(st, readFails, writeFails, events[..k]), readFails, writeFails, events[k])
  {
    assert events[..k + 1][..k] == events[..k];
  }

  /** Replaying a log adds one to the found counter per onDeviceFound. */
  lemma {:induction false} ReplayCounts(st: ScanState, readFails: bool, writeFails: bool, events: seq<ScanEvent>)
    ensures Replay(st, readFails, writeFails, events).found == st.found + |FoundDevices(events)|
  {
    if events != [] {
      var init := events[..|events| - 1];
      ReplayCounts(st, readFails, writeFails, init);
    }
  }

  /** Replaying a log leaves the last onProgress numerator, or the old one when there is none. */
  lemma {:induction false} ReplayProgress(st: ScanState, readFails: bool, writeFails: bool, events: seq<ScanEvent>)
    ensures Replay(st, readFails, writeFails, events).progress ==
      if ProgressSteps(events) == [] then st.progress else LastProgress(ProgressSteps(events))
  {
    if events != [] {
      var init := events[..|events| - 1];
      ReplayProgress(st, readFails, writeFails, init);
    }
  }

  /** Replaying a log adds the reported records to the store in the order they were reported. */
  lemma {:induction false} ReplayStore(st: ScanState, readFails: bool, writeFails: bool, events: seq<ScanEvent>)
    ensures Replay(st, readFails, writeFails, events).entries == AddAll(st.entries, readFails, writeFails, FoundDevices(events))
  {
    if events != [] {
      var init := events[..|events| - 1];
      var last := events[|events| - 1];
      ReplayStore(st, readFails, writeFails, init);
      if last.DeviceFound? {
        AddAllSnoc(st.entries, readFails, writeFails, FoundDevices(init), last.device);
      } else {
        assert FoundIn(last) == [];
        assert FoundDevices(events) == FoundDevices(init);
      }
    }
  }

  // ---------------------------------------------------------------------
  // Deletion

  /** After a deletion that reads and writes, no stored record carries the id and every other record stays. */
  lemma DeleteRemovesId(entries: map<string, seq<Device>>, deviceId: string, d: Device)
    ensures var after := Saved(entries, false, WithoutId(Loaded(entries, false), deviceId));
      d in Loaded(after, false) <==> d in Loaded(entries, false) && d.id != deviceId
  {
    WithoutIdMembers(Loaded(entries, false), deviceId, d);
  }

  // ---------------------------------------------------------------------
  // The screen

  /** The screen's state: the displayed list, the spinner flags and the two scan counters. */
  class DevicesScreen {
    var devices: seq<Device>
    var refreshing: bool
    var scanning: bool
    var scanProgress: nat
    var foundDevices: nat
    const store: DeviceStore

    constructor (store: DeviceStore)
      ensures devices == [] && !refreshing && !scanning && scanProgress == 0 && foundDevices == 0
      ensures this.store == store
    {
      devices := [];
      refreshing := false;
      scanning := false;
      scanProgress := 0;
      foundDevices := 0;
      this.store := store;
    }

    /** loadDevicesList: show what the store holds (loadDevices never throws). */
    method LoadDevicesList()
      modifies this`devices
      ensures devices == store.Current()
    {
      devices := store.LoadDevices();
    }

    /** checkDevicesStatus: refresh every device, show the refreshed list and save that same list. */
    method CheckDevicesStatus(net: Network, clock: seq<int>) returns (outcome: Outcome)
      requires |clock| == |devices|
      modifies this`devices, store`entries
      ensures devices == RefreshAll(net, old(devices), clock)
      ensures store.entries == Saved(old(store.entries), store.writeFails, devices)
      ensures outcome == if store.writeFails then Threw else Done
    {
      var updatedDevices := RefreshAll(net, devices, clock);
      devices := updatedDevices;
      outcome := store.SaveDevices(updatedDevices);
    }

    /** onRefresh: the spinner is cleared only when the save went through; a failed save leaves it on. */
    method OnRefresh(net: Network, clock: seq<int>) returns (outcome: Outcome)
      requires |clock| == |devices|
      modifies this`devices, this`refreshing, store`entries
      ensures devices == RefreshAll(net, old(devices), clock)
      ensures store.entries == Saved(old(store.entries), store.writeFails, devices)
      ensures outcome == (if store.writeFails then Threw else Done) && refreshing == store.writeFails
    {
      refreshing := true;
      outcome := CheckDevicesStatus(net, clock);
      if outcome == Done {
        refreshing := false;
      }
    }

    /**
     * handleScanNetwork after the confirmation alert (`confirmed` is the
     * button pressed): reset the counters, scan, apply the callbacks in the
     * order they fired (onDeviceFound counts the record and adds it to the
     * store; onProgress records the numerator), then reload the list and
     * report. The records found and the callbacks are those of the sweep.
     */
    method HandleScanNetwork(net: Network, clock: seq<int>, confirmed: bool)
      returns (report: ScanReport, discovered: seq<Device>)
      requires |clock| == HostCount
      modifies this`devices, this`scanning, this`scanProgress, this`foundDevices, store`entries
      ensures !confirmed ==>
        report == NotStarted && discovered == [] && store.entries == old(store.entries) &&
        devices == old(devices) && scanning == old(scanning) &&
        scanProgress == old(scanProgress) && foundDevices == old(foundDevices)
      ensures confirmed ==>
        discovered == Sweep(net, clock, HostCount) &&
        store.entries == AddAll(old(store.entries), store.readFails, store.writeFails, discovered) &&
        devices == store.Current() && !scanning &&
        foundDevices == |discovered| && scanProgress == HostCount &&
        report == if |discovered| > 0 then Found(|discovered|) else NoneFound
    {
      if !confirmed {
        return NotStarted, [];
      }
      scanning := true;
      scanProgress := 0;
      foundDevices := 0;
      var fetched, events;
      discovered, fetched, events := ScanNetwork(net, clock);
      ghost var before := Snapshot();
      ApplyScanEvents(events);
      ReplayCounts(before, store.readFails, store.writeFails, events);
      ReplayProgress(before, store.readFails, store.writeFails, events);
      ReplayStore(before, store.readFails, store.writeFails, events);
      SweepFoundEvents(net, clock);
      SweepProgress(net, clock);
      scanning := false;
      LoadDevicesList();
      report := if |discovered| > 0 then Found(|discovered|) else NoneFound;
    }

    /** The onDeviceFound callback: count the record and add it to the store (the add is not awaited). */
    method OnDeviceFound(device: Device)
      modifies this`foundDevices, store`entries
      ensures foundDevices == old(foundDevices) + 1
      ensures store.entries == Saved(old(store.entries), store.writeFails, Upsert(Loaded(old(store.entries), store.readFails), device))
    {
      foundDevices := foundDevices + 1;
      var added := store.AddDevice(device);
    }

    /** The onProgress callback: record the numerator. */
    method OnProgress(host: nat)
      modifies this`scanProgress
      ensures scanProgress == host
    {
      scanProgress := host;
    }

    /** The scan counters and the store, as the callbacks see them. */
    function Snapshot(): ScanState
      reads this, store
    {
      ScanState(foundDevices, scanProgress, store.entries)
    }

    /** The callback an event stands for. */
    method OnScanEvent(event: ScanEvent)
      modifies this`scanProgress, this`foundDevices, store`entries
      ensures Snapshot() == Step(old(Snapshot()), store.readFails, store.writeFails, event)
    {
      if event.DeviceFound? {
        OnDeviceFound(event.device);
      } else {
        OnProgress(event.host);
      }
    }

    /** The two scan callbacks, in the order they fired. */
    method ApplyScanEvents(events: seq<ScanEvent>)
      modifies this`scanProgress, this`foundDevices, store`entries
      ensures Snapshot() == Replay(old(Snapshot()), store.readFails, store.writeFails, events)
    {
      ghost var start := Snapshot();
      var k := 0;
      while k < |events|
        invariant 0 <= k <= |events|
        invariant Snapshot() == Replay(start, store.readFails, store.writeFails, events[..k])
      {
        ReplayPrefixStep(start, store.readFails, store.writeFails, events, k);
        OnScanEvent(events[k]);
        k := k + 1;
      }
      assert events[..|events|] == events;
    }

    /**
     * handleDeleteDevice after the confirmation alert: remove the id from the
     * store, then reload; a failed write throws out of the handler, so the
     * displayed list is not reloaded.
     */
    method HandleDeleteDevice(deviceId: string, confirmed: bool)
      modifies this`devices, store`entries
      ensures !confirmed ==> devices == old(devices) && store.entries == old(store.entries)
      ensures confirmed ==>
        store.entries == Saved(old(store.entries), store.writeFails, WithoutId(Loaded(old(store.entries), store.readFails), deviceId))
      ensures confirmed ==> devices == if store.writeFails then old(devices) else store.Current()
    {
      if !confirmed {
        return;
      }
      var outcome := store.RemoveDevice(deviceId);
      if outcome == Done {
        LoadDevicesList();
      }
    }
  }
}
