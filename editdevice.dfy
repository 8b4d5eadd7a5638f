// Editing a stored device (screens/EditDeviceScreen.tsx, handleSaveDevice and
// updateDevice): the name and address checks, a probe of the address only
// when it was changed, the user's choice when that probe fails, then the
// rewrite of the stored record that carries the device's id.

module EditDevice {
  import opened Types
  import opened Text
  import opened IpValidation
  import opened NetworkDiscovery
  import opened Storage

  /**
   * How an edit ends: one of the three input alerts, "cancel" pressed after a
   * failed probe, success, or the error alert updateDevice raises when the id
   * is no longer stored or the write fails.
   */
  datatype EditResult =
    | MissingName
    | MissingAddress
    | InvalidAddress
    | Cancelled
    | Updated
    | NotFound
    | SaveFailed

  /** `devices.findIndex(d => d.id === id)`. */
  function FindById(devices: seq<Device>, id: string): (k: int)
    ensures -1 <= k < |devices|
    ensures k >= 0 ==> devices[k].id == id && forall j :: 0 <= j < k ==> devices[j].id != id
    ensures k == -1 <==> forall j :: 0 <= j < |devices| ==> devices[j].id != id
  {
    if devices == [] then -1
    else if devices[0].id == id then 0
    else
      var k := FindById(devices[1..], id);
      if k < 0 then -1 else k + 1
  }

  /**
   * `{...entry, name: deviceName.trim(), ipAddress: ipAddress.trim(), id:
   * `${ipAddress.trim()}:${device.port}`}`, where `port` is the port of the
   * device the screen was opened with.
   */
  function Rewritten(entry: Device, port: int, deviceName: string, ipAddress: string): Device {
    entry.(name := Trim(deviceName), ipAddress := Trim(ipAddress), id := DeviceId(Trim(ipAddress), port))
  }

  /** The list updateDevice saves, or None when no record carries the edited device's id. */
  function Edited(devices: seq<Device>, original: Device, deviceName: string, ipAddress: string): Option<seq<Device>> {
    var k := FindById(devices, original.id);
    if k < 0 then None else Some(devices[k := Rewritten(devices[k], original.port, deviceName, ipAddress)])
  }

  /** The first input check of handleSaveDevice that fails, or None when all pass. */
  function InputError(deviceName: string, ipAddress: string): Option<EditResult> {
    if IsBlank(deviceName) then Some(MissingName)
    else if IsBlank(ipAddress) then Some(MissingAddress)
    else if !ValidateIP(ipAddress) then Some(InvalidAddress)
    else None
  }

  /** The probe runs only when the typed address differs, character for character, from the stored one. */
  predicate NeedsProbe(original: Device, ipAddress: string) {
    ipAddress != original.ipAddress
  }

  /** How updateDevice ends, given the store's contents and whether its reads and writes fail. */
  function UpdateOutcome(entries: map<string, seq<Device>>, readFails: bool, writeFails: bool,
                         original: Device, deviceName: string, ipAddress: string): EditResult {
    if Edited(Loaded(entries, readFails), original, deviceName, ipAddress).None? then NotFound
    else if writeFails then SaveFailed
    else Updated
  }

  /** The store after updateDevice: the key rewritten on success, untouched otherwise. */
  function UpdatedEntries(entries: map<string, seq<Device>>, readFails: bool, writeFails: bool,
                          original: Device, deviceName: string, ipAddress: string): map<string, seq<Device>> {
    var edited := Edited(Loaded(entries, readFails), original, deviceName, ipAddress);
    if edited.None? || writeFails then entries else entries[DevicesKey := edited.value]
  }

  /**
   * How handleSaveDevice ends, given the outcome of its input checks
   * (`check`, which is InputError of the typed texts) and how updateDevice
   * would end (`update`). `saveAnyway` is the button the user presses on the
   * "connection failed" alert; it only matters when that alert shows.
   */
  function EditOutcome(check: Option<EditResult>, net: Network, original: Device, ipAddress: string, saveAnyway: bool,
                       update: EditResult): EditResult {
    if check.Some? then check.value
    else if NeedsProbe(original, ipAddress) && !CheckDeviceAvailability(net, ipAddress, original.port) && !saveAnyway
    then Cancelled
    else update
  }

  /** Evaluates the guards of InputError in the order of screens/EditDeviceScreen.tsx:49-62, so that the handler
    * stops at the first alert. */
  method CheckInputs(deviceName: string, ipAddress: string) returns (error: Option<EditResult>)
    ensures error == InputError(deviceName, ipAddress)
  {
    if IsBlank(deviceName) {
      return Some(MissingName);
    }
    if IsBlank(ipAddress) {
      return Some(MissingAddress);
    }
    if !ValidateIP(ipAddress) {
      return Some(InvalidAddress);
    }
    return None;
  }

  /** updateDevice: load, rewrite the record with the device's id, save; both failures end in the error alert. */
  method UpdateDevice(store: DeviceStore, original: Device, deviceName: string, ipAddress: string)
    returns (result: EditResult)
    modifies store`entries
    ensures result == UpdateOutcome(old(store.entries), store.readFails, store.writeFails, original, deviceName, ipAddress)
    ensures store.entries ==
      UpdatedEntries(old(store.entries), store.readFails, store.writeFails, original, deviceName, ipAddress)
  {
    var devices := store.LoadDevices();
    ghost var edited := Edited(devices, original, deviceName, ipAddress);
    var deviceIndex := FindById(devices, original.id);
    if deviceIndex >= 0 {
      devices := devices[deviceIndex := Rewritten(devices[deviceIndex], original.port, deviceName, ipAddress)];
      assert edited == Some(devices);
      var outcome := store.SaveDevices(devices);
      result := if outcome == Threw then SaveFailed else Updated;
    } else {
      assert edited == None;
      result := NotFound;
    }
  }

  /**
   * handleSaveDevice, with the typed texts and the user's answer to the
   * "connection failed" alert as parameters; returns how it ends and the
   * URLs it fetched.
   */
  method HandleSaveDevice(store: DeviceStore, net: Network, original: Device, deviceName: string, ipAddress: string,
                          saveAnyway: bool, now: int)
    returns (result: EditResult, fetched: seq<string>)
    modifies store`entries
    ensures result == EditOutcome(InputError(deviceName, ipAddress), net, original, ipAddress, saveAnyway,
      UpdateOutcome(old(store.entries), store.readFails, store.writeFails, original, deviceName, ipAddress))
    ensures fetched ==
      if InputError(deviceName, ipAddress).None? && NeedsProbe(original, ipAddress)
      then [StatusUrl(ipAddress, original.port)] else []
    ensures InputError(deviceName, ipAddress).Some? || result == Cancelled ==> store.entries == old(store.entries)
    ensures InputError(deviceName, ipAddress).None? && result != Cancelled ==>
      store.entries ==
        UpdatedEntries(old(store.entries), store.readFails, store.writeFails, original, deviceName, ipAddress)
  {
    fetched := [];
    var error := CheckInputs(deviceName, ipAddress);
    if error.Some? {
      return error.value, fetched;
    }
    if ipAddress != original.ipAddress {
      fetched := [StatusUrl(ipAddress, original.port)];
      var verifiedDevice := CreateDeviceFromIP(net, ipAddress, original.port, now);
      if verifiedDevice.None? && !saveAnyway {
        return Cancelled, fetched;
      }
    }
    result := UpdateDevice(store, original, deviceName, ipAddress);
  }

  // ---------------------------------------------------------------------
  // Properties

  /**
   * A successful edit rewrites the one record with the device's id, the
   * first one, and nothing else: same length, every other record kept.
   */
  lemma EditedRewritesOnlyThatEntry(devices: seq<Device>, original: Device, deviceName: string, ipAddress: string)
    requires Edited(devices, original, deviceName, ipAddress).Some?
    ensures var k := FindById(devices, original.id);
      var edited := Edited(devices, original, deviceName, ipAddress).value;
      0 <= k && |edited| == |devices| && devices[k].id == original.id &&
      (forall j :: 0 <= j < |devices| && j != k ==> edited[j] == devices[j])
  {
  }

  /**
   * The rewritten record takes the trimmed name and address and the id they
   * give with the edited device's port; its port, status and last-seen time
   * are the stored record's.
   */
  lemma RewrittenFields(entry: Device, port: int, deviceName: string, ipAddress: string)
    ensures var r := Rewritten(entry, port, deviceName, ipAddress);
      r.name == Trim(deviceName) && r.ipAddress == Trim(ipAddress) && r.id == DeviceId(Trim(ipAddress), port) &&
      r.port == entry.port && r.isOnline == entry.isOnline && r.lastSeen == entry.lastSeen
  {
  }

  /** updateDevice finds nothing to rewrite exactly when no stored record carries the id. */
  lemma EditedNoneIffAbsent(devices: seq<Device>, original: Device, deviceName: string, ipAddress: string)
    ensures Edited(devices, original, deviceName, ipAddress).None? <==>
      forall j :: 0 <= j < |devices| ==> devices[j].id != original.id
  {
  }

  /**
   * A record stored with the id its address and port give, edited with an
   * address the checks accept, keeps that property, and its address is the
   * typed one unchanged (an accepted address has nothing to trim).
   */
  lemma EditKeepsKeyed(entry: Device, original: Device, deviceName: string, ipAddress: string)
    requires WellKeyed(entry) && WellKeyed(original) && entry.id == original.id
    requires ValidateIP(ipAddress)
    ensures var r := Rewritten(entry, original.port, deviceName, ipAddress);
      WellKeyed(r) && r.ipAddress == ipAddress
  {
    DeviceIdPortInjective(entry.ipAddress, original.ipAddress, entry.port, original.port);
    ValidIpIsTrimmed(ipAddress);
  }

  /**
   * The checks run in order: the name, then a blank address, then the
   * address syntax; an address that passes the syntax check is not blank.
   */
  lemma CheckOrder(deviceName: string, ipAddress: string)
    ensures IsBlank(deviceName) ==> InputError(deviceName, ipAddress) == Some(MissingName)
    ensures !IsBlank(deviceName) && IsBlank(ipAddress) ==> InputError(deviceName, ipAddress) == Some(MissingAddress)
    ensures !IsBlank(deviceName) && !IsBlank(ipAddress) && !ValidateIP(ipAddress) ==>
      InputError(deviceName, ipAddress) == Some(InvalidAddress)
    ensures InputError(deviceName, ipAddress).None? <==> !IsBlank(deviceName) && ValidateIP(ipAddress)
  {
    if ValidateIP(ipAddress) {
      ValidIpIsTrimmed(ipAddress);
    }
  }

  /**
   * How handleSaveDevice ends, case by case: the name check fires first, then
   * the blank address, then the address syntax; a changed address is probed,
   * and an unanswered probe followed by "cancel" ends the edit; otherwise
   * updateDevice decides between a missing record, a failed write and success.
   */
  lemma EditOutcomeCases(net: Network, original: Device, deviceName: string, ipAddress: string, saveAnyway: bool,
                         entries: map<string, seq<Device>>, readFails: bool, writeFails: bool)
    ensures var r := EditOutcome(InputError(deviceName, ipAddress), net, original, ipAddress, saveAnyway,
                                 UpdateOutcome(entries, readFails, writeFails, original, deviceName, ipAddress));
      (r == MissingName <==> IsBlank(deviceName)) &&
      (r == MissingAddress <==> !IsBlank(deviceName) && IsBlank(ipAddress)) &&
      (r == InvalidAddress <==> !IsBlank(deviceName) && !IsBlank(ipAddress) && !ValidateIP(ipAddress))
    ensures !IsBlank(deviceName) && ValidateIP(ipAddress) ==>
      var r := EditOutcome(InputError(deviceName, ipAddress), net, original, ipAddress, saveAnyway,
                           UpdateOutcome(entries, readFails, writeFails, original, deviceName, ipAddress));
      var cancelled := ipAddress != original.ipAddress && !RespondsOk(net, StatusUrl(ipAddress, original.port)) && !saveAnyway;
      var found := Edited(Loaded(entries, readFails), original, deviceName, ipAddress).Some?;
      (r == Cancelled <==> cancelled) &&
      (r == NotFound <==> !cancelled && !found) &&
      (r == SaveFailed <==> !cancelled && found && writeFails) &&
      (r == Updated <==> !cancelled && found && !writeFails)
  {
    if ValidateIP(ipAddress) {
      ValidIpIsTrimmed(ipAddress);
    }
  }

  /** With the address unchanged there is no probe: the replies do not matter and the edit is never cancelled. */
  lemma NoProbeWhenUnchanged(check: Option<EditResult>, net1: Network, net2: Network, original: Device,
                             saveAnyway: bool, update: EditResult)
    requires check != Some(Cancelled) && update != Cancelled
    ensures var ip := original.ipAddress;
      EditOutcome(check, net1, original, ip, saveAnyway, update) == EditOutcome(check, net2, original, ip, false, update) &&
      EditOutcome(check, net1, original, ip, saveAnyway, update) != Cancelled
  {
  }

  /** "Save anyway" writes the edit as if the probe had succeeded. */
  lemma SaveAnywayIgnoresProbe(check: Option<EditResult>, net: Network, answering: Network, original: Device,
                               ipAddress: string, update: EditResult)
    requires RespondsOk(answering, StatusUrl(ipAddress, original.port))
    ensures EditOutcome(check, net, original, ipAddress, true, update) ==
      EditOutcome(check, answering, original, ipAddress, false, update)
  {
  }

  /** updateDevice ends in success, a missing record or a failed write, never in an input alert. */
  lemma UpdateOutcomeRange(entries: map<string, seq<Device>>, readFails: bool, writeFails: bool,
                           original: Device, deviceName: string, ipAddress: string)
    ensures var u := UpdateOutcome(entries, readFails, writeFails, original, deviceName, ipAddress);
      u == Updated || u == NotFound || u == SaveFailed
    ensures UpdateOutcome(entries, readFails, writeFails, original, deviceName, ipAddress) == Updated <==>
      !writeFails && Edited(Loaded(entries, readFails), original, deviceName, ipAddress).Some?
  {
  }

  /** After a successful edit, what loads next is the edited list. */
  lemma UpdatedThenLoaded(entries: map<string, seq<Device>>, original: Device, deviceName: string, ipAddress: string)
    requires UpdateOutcome(entries, false, false, original, deviceName, ipAddress) == Updated
    ensures Loaded(UpdatedEntries(entries, false, false, original, deviceName, ipAddress), false) ==
      Edited(Loaded(entries, false), original, deviceName, ipAddress).value
  {
  }
}
