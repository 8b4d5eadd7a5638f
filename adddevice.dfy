// Manual addition of a device (screens/AddDeviceScreen.tsx, handleAddDevice):
// the checks on the typed address and port, in order, then one probe of the
// address, then the store update when the probe gives a record.

module AddDevice {
  import opened Types
  import opened Text
  import opened IpValidation
  import opened NetworkDiscovery
  import opened Storage

  /**
   * How handleAddDevice ends: one of the three input alerts, the "connection
   * impossible" alert, success with the stored record, or the error alert
   * raised when the store write fails.
   */
  datatype AddResult =
    | MissingAddress
    | InvalidAddress
    | InvalidPort
    | Unreachable
    | Added(device: Device)
    | SaveFailed

  /** `parseInt(port, 10)` is a number in 1..65535. */
  predicate PortAccepted(port: string) {
    match ParseInt(port)
    case Some(v) => 1 <= v <= 65535
    case None => false
  }

  /** The first input check that fails, in the screen's order, or None when all pass. */
  function InputError(ipAddress: string, port: string): Option<AddResult> {
    if IsBlank(ipAddress) then Some(MissingAddress)
    else if !ValidateIP(ipAddress) then Some(InvalidAddress)
    else if !PortAccepted(port) then Some(InvalidPort)
    else None
  }

  /** `if (deviceName.trim()) device.name = deviceName.trim()`. */
  function Named(device: Device, deviceName: string): Device {
    if IsBlank(deviceName) then device else device.(name := Trim(deviceName))
  }

  /** The record handleAddDevice stores when the probe of a checked address succeeds. */
  function NewRecord(net: Network, ipAddress: string, port: string, deviceName: string, now: int): Device
    requires InputError(ipAddress, port).None?
    requires CheckDeviceAvailability(net, ipAddress, ParseInt(port).value)
  {
    Named(CreateDeviceFromIP(net, ipAddress, ParseInt(port).value, now).value, deviceName)
  }

  /** How handleAddDevice ends, given the replies and whether the store write fails. */
  function AddOutcome(net: Network, ipAddress: string, port: string, deviceName: string, now: int, writeFails: bool): AddResult {
    if InputError(ipAddress, port).Some? then InputError(ipAddress, port).value
    else if !CheckDeviceAvailability(net, ipAddress, ParseInt(port).value) then Unreachable
    else if writeFails then SaveFailed
    else Added(NewRecord(net, ipAddress, port, deviceName, now))
  }

  /** Evaluates the guards of InputError in the order of screens/AddDeviceScreen.tsx:45-59, so that the handler
    * stops at the first alert; on success it also gives the parsed port. */
  method CheckInputs(ipAddress: string, port: string) returns (error: Option<AddResult>, portNumber: int)
    ensures error == InputError(ipAddress, port)
    ensures error.None? ==> ParseInt(port) == Some(portNumber)
  {
    portNumber := 0;
    if IsBlank(ipAddress) {
      return Some(MissingAddress), portNumber;
    }
    if !ValidateIP(ipAddress) {
      return Some(InvalidAddress), portNumber;
    }
    var parsed := ParseInt(port);
    if parsed.None? || parsed.value < 1 || parsed.value > 65535 {
      return Some(InvalidPort), portNumber;
    }
    return None, parsed.value;
  }

  /**
   * handleAddDevice, with the typed texts as parameters; returns how it ends
   * and the URLs it fetched. The store is written only when the probe gives a
   * record; when that write fails nothing changes and the error alert shows.
   */
  method HandleAddDevice(store: DeviceStore, net: Network, ipAddress: string, port: string, deviceName: string, now: int)
    returns (result: AddResult, fetched: seq<string>)
    modifies store`entries
    ensures result == AddOutcome(net, ipAddress, port, deviceName, now, store.writeFails)
    ensures InputError(ipAddress, port).Some? ==> fetched == [] && store.entries == old(store.entries)
    ensures InputError(ipAddress, port).None? ==> fetched == [StatusUrl(ipAddress, ParseInt(port).value)]
    ensures result == Unreachable || result == SaveFailed || InputError(ipAddress, port).Some? ==>
      store.entries == old(store.entries)
    ensures result.Added? ==>
      store.entries == old(store.entries)[DevicesKey := Upsert(Loaded(old(store.entries), store.readFails), result.device)]
  {
    fetched := [];
    var error, portNumber := CheckInputs(ipAddress, port);
    if error.Some? {
      return error.value, fetched;
    }
    fetched := [StatusUrl(ipAddress, portNumber)];
    var device := CreateDeviceFromIP(net, ipAddress, portNumber, now);
    if device.Some? {
      var record := device.value;
      if !IsBlank(deviceName) {
        record := record.(name := Trim(deviceName));
      }
      var outcome := store.AddDevice(record);
      if outcome == Threw {
        result := SaveFailed;
      } else {
        result := Added(record);
      }
    } else {
      result := Unreachable;
    }
  }

  // ---------------------------------------------------------------------
  // Properties

  /**
   * How handleAddDevice ends, case by case: the blank check fires first, then
   * the address syntax, then the port range; after the checks, the one probe
   * decides between "connection impossible" and a store write, and the write
   * decides between success and the error alert.
   */
  lemma AddOutcomeCases(net: Network, ipAddress: string, port: string, deviceName: string, now: int, writeFails: bool)
    ensures var r := AddOutcome(net, ipAddress, port, deviceName, now, writeFails);
      (r == MissingAddress <==> IsBlank(ipAddress)) &&
      (r == InvalidAddress <==> !IsBlank(ipAddress) && !ValidateIP(ipAddress)) &&
      (r == InvalidPort <==> ValidateIP(ipAddress) && !PortAccepted(port))
    ensures ValidateIP(ipAddress) && PortAccepted(port) ==>
      var r := AddOutcome(net, ipAddress, port, deviceName, now, writeFails);
      var answers := RespondsOk(net, StatusUrl(ipAddress, ParseInt(port).value));
      (r == Unreachable <==> !answers) &&
      (r == SaveFailed <==> answers && writeFails) &&
      (r.Added? <==> answers && !writeFails)
  {
    if ValidateIP(ipAddress) {
      ValidIpIsTrimmed(ipAddress);
    }
  }

  /**
   * The stored record: the typed address and port, online, seen now, keyed
   * `${ip}:${port}`, named after the trimmed user name when that is not
   * blank and "R_VOLUTION (<ip>)" otherwise.
   */
  lemma AddedRecord(net: Network, ipAddress: string, port: string, deviceName: string, now: int, writeFails: bool)
    requires AddOutcome(net, ipAddress, port, deviceName, now, writeFails).Added?
    ensures var d := AddOutcome(net, ipAddress, port, deviceName, now, writeFails).device;
      d.ipAddress == ipAddress && Some(d.port) == ParseInt(port) && 1 <= d.port <= 65535 &&
      WellKeyed(d) && d.isOnline && d.lastSeen == Some(now) &&
      (if IsBlank(deviceName) then d.name == DefaultName(ipAddress) else d.name == Trim(deviceName))
  {
    var portNumber := ParseInt(port).value;
    assert CheckDeviceAvailability(net, ipAddress, portNumber);
    RecordFields(CreateDeviceFromIP(net, ipAddress, portNumber, now).value, deviceName);
  }

  lemma RecordFields(device: Device, deviceName: string)
    ensures Named(device, deviceName).(name := device.name) == device
    ensures Named(device, deviceName).name == if IsBlank(deviceName) then device.name else Trim(deviceName)
  {
  }

  /** An address the blank check lets through but with padding is still refused, by the syntax check. */
  lemma PaddedAddressRefused(ipAddress: string, port: string)
    ensures InputError(" " + ipAddress, port).Some? && InputError(ipAddress + " ", port).Some?
  {
    PaddedIpRejected(ipAddress);
  }

  /** `${n}` for a port number passes the port check exactly when n is in 1..65535. */
  lemma PortTextAccepted(n: nat)
    ensures PortAccepted(NatToString(n)) <==> 1 <= n <= 65535
  {
    ParseIntRoundTrip(n);
  }

  /** parseInt reads a leading number and ignores what follows, so "80abc" passes as port 80. */
  lemma PortTrailingText()
    ensures ParseInt("80abc") == Some(80) && PortAccepted("80abc")
  {
    var s := "80abc";
    assert TrimStart(s) == s;
    assert LeadingDigits(s[2..]) == 0;
    assert LeadingDigits(s) == 2;
    assert s[..2] == "8" + ['0'];
    DecimalValueSnoc("8", '0');
  }

  /** Port 0 fails the check. */
  lemma PortZeroRejected()
    ensures !PortAccepted("0")
  {
    assert LeadingDigits("0") == 1;
    assert "0"[..1] == "0";
  }

  /** An empty text and a text without digits parse as NaN and fail the check. */
  lemma PortWithoutDigitsRejected()
    ensures !PortAccepted("") && !PortAccepted("port")
  {
    ParseIntNoDigits("");
    ParseIntNoDigits("port");
  }
}
