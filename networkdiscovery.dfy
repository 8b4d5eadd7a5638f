// Device discovery (services/networkDiscovery.ts): a sweep of the 254 host
// addresses of a fixed /24 prefix, one GET of `/status` on port 80 each, and
// the single-address availability check and record construction used by the
// add and edit screens.

module NetworkDiscovery {
  import opened Types
  import opened Text

  /** getLocalIPAddress: no detection at all, always this prefix. */
  const LocalPrefix: string := "192.168.1"
  const ScanPort: int := 80
  /** Host numbers 1..254 of the /24 prefix. */
  const HostCount: nat := 254

  function HostAddress(i: nat): string {
    LocalPrefix + "." + NatToString(i)
  }

  /** `http://${ip}:${port}/status`. */
  function StatusUrl(ip: string, port: int): string {
    "http://" + ip + ":" + IntToString(port) + "/status"
  }

  /** `${ip}:${port}`, the key every record is built with. */
  function DeviceId(ip: string, port: int): string {
    ip + ":" + IntToString(port)
  }

  /** The record's id is the one its address and port determine. */
  predicate WellKeyed(d: Device) {
    d.id == DeviceId(d.ipAddress, d.port)
  }

  /** `R_VOLUTION (${ip})`. */
  function DefaultName(ip: string): string {
    "R_VOLUTION (" + ip + ")"
  }

  /**
   * The name a positive probe gives its record: the body's `name` when it
   * contains "R_VOLUTION", otherwise (no JSON, no name, another name) the
   * default. Either way the name contains "R_VOLUTION".
   */
  function DiscoveredName(ip: string, bodyName: Option<string>): string {
    if bodyName.Some? && Contains(bodyName.value, "R_VOLUTION") then bodyName.value
    else DefaultName(ip)
  }

  /**
   * The name always contains "R_VOLUTION"; a body name that contains it wins,
   * and any name other than the default came from the body.
   */
  lemma DiscoveredNameMarked(ip: string, bodyName: Option<string>)
    ensures Contains(DiscoveredName(ip, bodyName), "R_VOLUTION")
    ensures bodyName.Some? && Contains(bodyName.value, "R_VOLUTION") ==> DiscoveredName(ip, bodyName) == bodyName.value
    ensures DiscoveredName(ip, bodyName) != DefaultName(ip) ==> bodyName == Some(DiscoveredName(ip, bodyName))
  {
    assert OccursAt(DefaultName(ip), "R_VOLUTION", 0);
    ContainsIff(DefaultName(ip), "R_VOLUTION");
  }

  /** The record the sweep builds for a host that answered ok, read at clock value `now`. */
  function ScanRecord(net: Network, ip: string, now: int): (d: Device)
    requires net(StatusUrl(ip, ScanPort)).Response?
  {
    Device(DeviceId(ip, ScanPort), DiscoveredName(ip, net(StatusUrl(ip, ScanPort)).bodyName),
           ip, ScanPort, true, Some(now))
  }

  /** What probing host i gives: its record when the reply has an ok status, else nothing. */
  function HostOutcome(net: Network, clock: seq<int>, i: nat): Option<Device>
    requires 1 <= i <= |clock|
  {
    if RespondsOk(net, StatusUrl(HostAddress(i), ScanPort))
    then Some(ScanRecord(net, HostAddress(i), clock[i - 1]))
    else None
  }

  /**
   * The outcomes of hosts 1..n in host order. `clock[i - 1]` is the value
   * Date.now() gives when host i's record is built.
   */
  function Outcomes(net: Network, clock: seq<int>, n: nat): (os: seq<Option<Device>>)
    requires n <= |clock|
    ensures |os| == n
  {
    if n == 0 then [] else Outcomes(net, clock, n - 1) + [HostOutcome(net, clock, n)]
  }

  function AsSeq(o: Option<Device>): seq<Device> {
    match o
    case Some(d) => [d]
    case None => []
  }

  /** The records among a sequence of outcomes, in order. */
  function Kept(os: seq<Option<Device>>): seq<Device> {
    if os == [] then [] else Kept(os[..|os| - 1]) + AsSeq(os[|os| - 1])
  }

  /** The callbacks the sweep fires: onDeviceFound(record) and onProgress(host / 254). */
  datatype ScanEvent = DeviceFound(device: Device) | Progress(host: nat)

  function FoundEvent(o: Option<Device>): seq<ScanEvent> {
    match o
    case Some(d) => [DeviceFound(d)]
    case None => []
  }

  /** The callbacks fired for a sequence of outcomes: per host, onDeviceFound if found, then onProgress. */
  function Reported(os: seq<Option<Device>>): seq<ScanEvent> {
    if os == [] then [] else Reported(os[..|os| - 1]) + FoundEvent(os[|os| - 1]) + [Progress(|os|)]
  }

  /** The records the sweep of hosts 1..n returns. */
  function Sweep(net: Network, clock: seq<int>, n: nat): seq<Device>
    requires n <= |clock|
  {
    Kept(Outcomes(net, clock, n))
  }

  /** The callbacks the sweep of hosts 1..n fires. */
  function SweepEvents(net: Network, clock: seq<int>, n: nat): seq<ScanEvent>
    requires n <= |clock|
  {
    Reported(Outcomes(net, clock, n))
  }

  /** The `/status` URLs of hosts 1..n, in order. */
  function SweepUrls(n: nat): seq<string> {
    seq(n, k requires 0 <= k < n => StatusUrl(HostAddress(k + 1), ScanPort))
  }

  lemma SweepUrlsStep(n: nat)
    ensures SweepUrls(n + 1) == SweepUrls(n) + [StatusUrl(HostAddress(n + 1), ScanPort)]
  {
    assert SweepUrls(n + 1)[..n] == SweepUrls(n);
  }

  function FoundIn(e: ScanEvent): seq<Device> {
    match e
    case DeviceFound(d) => [d]
    case Progress(_) => []
  }

  function ProgressIn(e: ScanEvent): seq<nat> {
    match e
    case DeviceFound(_) => []
    case Progress(i) => [i]
  }

  /** The records an event log reports through onDeviceFound, in order. */
  function FoundDevices(events: seq<ScanEvent>): seq<Device> {
    if events == [] then [] else FoundDevices(events[..|events| - 1]) + FoundIn(events[|events| - 1])
  }

  /** The numerators an event log reports through onProgress, in order. */
  function ProgressSteps(events: seq<ScanEvent>): seq<nat> {
    if events == [] then [] else ProgressSteps(events[..|events| - 1]) + ProgressIn(events[|events| - 1])
  }

  /**
   * The per-host step of scanNetwork: GET the `/status` page; on an ok status
   * build the record, named after the body's `name` when that contains
   * "R_VOLUTION"; on any other status or a thrown error, nothing.
   */
  method ProbeAddress(net: Network, ipAddress: string, port: int, now: int) returns (found: Option<Device>)
    requires port == ScanPort
    ensures found == if RespondsOk(net, StatusUrl(ipAddress, port)) then Some(ScanRecord(net, ipAddress, now)) else None
  {
    var reply := net(StatusUrl(ipAddress, port));
    found := None;
    if reply.Response? && IsOkStatus(reply.status) {
      var deviceName := DefaultName(ipAddress);
      if reply.bodyName.Some? && Contains(reply.bodyName.value, "R_VOLUTION") {
        deviceName := reply.bodyName.value;
      }
      found := Some(Device(DeviceId(ipAddress, port), deviceName, ipAddress, port, true, Some(now)));
    }
  }

  /**
   * scanNetwork: for i in 1..254, probe `http://192.168.1.i:80/status`; keep
   * each record found and fire onDeviceFound for it; whatever the outcome,
   * fire onProgress. Returned are the records, the URLs fetched and the
   * callbacks fired.
   */
  method ScanNetwork(net: Network, clock: seq<int>)
    returns (devices: seq<Device>, fetched: seq<string>, events: seq<ScanEvent>)
    requires |clock| == HostCount
    ensures devices == Sweep(net, clock, HostCount)
    ensures fetched == SweepUrls(HostCount)
    ensures events == SweepEvents(net, clock, HostCount)
  {
    devices, fetched, events := [], [], [];
    var baseIP := LocalPrefix;
    var port := ScanPort;
    for i := 1 to HostCount + 1
      invariant devices == Kept(Outcomes(net, clock, i - 1))
      invariant fetched == SweepUrls(i - 1)
      invariant events == Reported(Outcomes(net, clock, i - 1))
    {
      var ipAddress := baseIP + "." + NatToString(i);
      assert ipAddress == HostAddress(i);
      SweepUrlsStep(i - 1);
      fetched := fetched + [StatusUrl(ipAddress, port)];
      var found := ProbeAddress(net, ipAddress, port, clock[i - 1]);
      assert found == HostOutcome(net, clock, i);
      SweepStep(net, clock, i, found);
      if found.Some? {
        devices := devices + [found.value];
        events := events + [DeviceFound(found.value)];
      }
      events := events + [Progress(i)];
    }
  }

  // ---------------------------------------------------------------------
  // Properties of the sweep

  lemma HostAddressInjective(i: nat, j: nat)
    ensures HostAddress(i) == HostAddress(j) ==> i == j
  {
    if HostAddress(i) == HostAddress(j) {
      var p := |LocalPrefix + "."|;
      assert NatToString(i) == HostAddress(i)[p..];
      assert NatToString(j) == HostAddress(j)[p..];
      NatToStringInjective(i, j);
    }
  }

  lemma StatusUrlInjective(a: string, b: string, port: int)
    ensures StatusUrl(a, port) == StatusUrl(b, port) ==> a == b
  {
    if StatusUrl(a, port) == StatusUrl(b, port) {
      var n := |"http://"|;
      assert |a| == |b|;
      assert a == StatusUrl(a, port)[n..n + |a|];
      assert b == StatusUrl(b, port)[n..n + |b|];
    }
  }

  /** The sweep fetches 254 distinct URLs, the `/status` page of "192.168.1.1" to "192.168.1.254" on port 80. */
  lemma SweepUrlsDistinct()
    ensures |SweepUrls(HostCount)| == HostCount
    ensures forall k :: 0 <= k < HostCount ==> SweepUrls(HostCount)[k] == StatusUrl(HostAddress(k + 1), 80)
    ensures forall j, k :: 0 <= j < k < HostCount ==> SweepUrls(HostCount)[j] != SweepUrls(HostCount)[k]
  {
    var urls := SweepUrls(HostCount);
    forall j, k | 0 <= j < k < HostCount ensures urls[j] != urls[k] {
      StatusUrlInjective(HostAddress(j + 1), HostAddress(k + 1), 80);
      HostAddressInjective(j + 1, k + 1);
    }
  }

  /** Adding one outcome extends the records and the callbacks at their ends. */
  lemma OutcomesStep(os: seq<Option<Device>>, o: Option<Device>)
    ensures Kept(os + [o]) == Kept(os) + AsSeq(o)
    ensures Reported(os + [o]) == Reported(os) + FoundEvent(o) + [Progress(|os| + 1)]
  {
    assert (os + [o])[..|os|] == os;
  }

  /** The sweep of hosts 1..i extends that of 1..i-1 by host i's outcome. */
  lemma SweepStep(net: Network, clock: seq<int>, i: nat, found: Option<Device>)
    requires 1 <= i <= |clock|
    requires found == HostOutcome(net, clock, i)
    ensures Kept(Outcomes(net, clock, i)) == Kept(Outcomes(net, clock, i - 1)) + AsSeq(found)
    ensures Reported(Outcomes(net, clock, i)) == Reported(Outcomes(net, clock, i - 1)) + FoundEvent(found) + [Progress(i)]
  {
    var os := Outcomes(net, clock, i - 1);
    assert Outcomes(net, clock, i) == os + [found];
    OutcomesStep(os, found);
  }

  lemma {:induction false} OutcomesAt(net: Network, clock: seq<int>, n: nat)
    requires n <= |clock|
    ensures |Outcomes(net, clock, n)| == n
    ensures forall i :: 0 <= i < n ==> Outcomes(net, clock, n)[i] == HostOutcome(net, clock, i + 1)
  {
    if n > 0 {
      OutcomesAt(net, clock, n - 1);
    }
  }

  /** A record is kept exactly when it is the outcome at some position. */
  lemma {:induction false} KeptMembers(os: seq<Option<Device>>, d: Device)
    ensures d in Kept(os) <==> exists i :: 0 <= i < |os| && os[i] == Some(d)
  {
    if os != [] {
      var prefix := os[..|os| - 1];
      KeptMembers(prefix, d);
      assert os == prefix + [os[|os| - 1]];
      if exists i :: 0 <= i < |prefix| && prefix[i] == Some(d) {
        var i :| 0 <= i < |prefix| && prefix[i] == Some(d);
        assert os[i] == Some(d);
      }
      if exists i :: 0 <= i < |os| && os[i] == Some(d) {
        var i :| 0 <= i < |os| && os[i] == Some(d);
        if i < |prefix| {
          assert prefix[i] == Some(d);
        }
      }
    }
  }

  /** Records at distinct positions with distinct addresses stay distinct once kept. */
  lemma {:induction false} KeptAddressesDistinct(os: seq<Option<Device>>)
    requires forall i, j :: 0 <= i < j < |os| && os[i].Some? && os[j].Some? ==>
               os[i].value.ipAddress != os[j].value.ipAddress
    ensures forall j, k :: 0 <= j < k < |Kept(os)| ==> Kept(os)[j].ipAddress != Kept(os)[k].ipAddress
  {
    if os != [] {
      var prefix := os[..|os| - 1];
      var last := os[|os| - 1];
      KeptAddressesDistinct(prefix);
      if last.Some? {
        forall j | 0 <= j < |Kept(prefix)| ensures Kept(prefix)[j].ipAddress != last.value.ipAddress {
          KeptMembers(prefix, Kept(prefix)[j]);
          var i :| 0 <= i < |prefix| && prefix[i] == Some(Kept(prefix)[j]);
          assert os[i] == prefix[i];
        }
      }
    }
  }

  /** The callbacks report the kept records through onDeviceFound, in order. */
  lemma {:induction false} ReportedFound(os: seq<Option<Device>>)
    ensures FoundDevices(Reported(os)) == Kept(os)
  {
    if os != [] {
      var prefix := os[..|os| - 1];
      var last := os[|os| - 1];
      ReportedFound(prefix);
      LogAppend(Reported(prefix), last);
    }
  }

  /** The callbacks report progress 1, 2, ..., |os|, one per outcome. */
  lemma {:induction false} ReportedProgress(os: seq<Option<Device>>)
    ensures |ProgressSteps(Reported(os))| == |os|
    ensures forall k :: 0 <= k < |os| ==> ProgressSteps(Reported(os))[k] == k + 1
  {
    if os != [] {
      var prefix := os[..|os| - 1];
      var last := os[|os| - 1];
      ReportedProgress(prefix);
      LogAppend(Reported(prefix), last);
    }
  }

  lemma LogAppend(before: seq<ScanEvent>, o: Option<Device>)
    ensures forall n :: FoundDevices(before + FoundEvent(o) + [Progress(n)]) == FoundDevices(before) + AsSeq(o)
    ensures forall n :: ProgressSteps(before + FoundEvent(o) + [Progress(n)]) == ProgressSteps(before) + [n]
  {
    forall n ensures FoundDevices(before + FoundEvent(o) + [Progress(n)]) == FoundDevices(before) + AsSeq(o)
      ensures ProgressSteps(before + FoundEvent(o) + [Progress(n)]) == ProgressSteps(before) + [n]
    {
      var mid := before + FoundEvent(o);
      assert (mid + [Progress(n)])[..|mid|] == mid;
      if o.Some? {
        assert mid[..|before|] == before;
      } else {
        assert mid == before;
      }
    }
  }

  /**
   * A record is in the sweep's result exactly when it is the record of some
   * host among 1..254 that answered with an ok status.
   */
  lemma SweepMembers(net: Network, clock: seq<int>, d: Device)
    requires |clock| == HostCount
    ensures d in Sweep(net, clock, HostCount) <==>
      exists i :: 1 <= i <= HostCount && HostOutcome(net, clock, i) == Some(d)
  {
    var os := Outcomes(net, clock, HostCount);
    OutcomesAt(net, clock, HostCount);
    KeptMembers(os, d);
    if exists i :: 1 <= i <= HostCount && HostOutcome(net, clock, i) == Some(d) {
      var i :| 1 <= i <= HostCount && HostOutcome(net, clock, i) == Some(d);
      assert os[i - 1] == Some(d);
    }
    if d in Sweep(net, clock, HostCount) {
      var i :| 0 <= i < |os| && os[i] == Some(d);
      assert HostOutcome(net, clock, i + 1) == Some(d);
    }
  }

  /**
   * An address of the sweep yields a record iff its reply has an ok status;
   * other statuses and thrown errors yield nothing.
   */
  lemma SweepYieldsIffOk(net: Network, clock: seq<int>, i: nat)
    requires |clock| == HostCount && 1 <= i <= HostCount
    ensures (exists d :: d in Sweep(net, clock, HostCount) && d.ipAddress == HostAddress(i))
        <==> RespondsOk(net, StatusUrl(HostAddress(i), 80))
  {
    var ip := HostAddress(i);
    if RespondsOk(net, StatusUrl(ip, 80)) {
      var d := ScanRecord(net, ip, clock[i - 1]);
      assert HostOutcome(net, clock, i) == Some(d);
      SweepMembers(net, clock, d);
      assert d in Sweep(net, clock, HostCount) && d.ipAddress == ip;
    }
    if exists d :: d in Sweep(net, clock, HostCount) && d.ipAddress == ip {
      var d :| d in Sweep(net, clock, HostCount) && d.ipAddress == ip;
      SweepMembers(net, clock, d);
      var j :| 1 <= j <= HostCount && HostOutcome(net, clock, j) == Some(d);
      HostAddressInjective(i, j);
    }
  }

  /**
   * Every record the sweep returns has id `${ip}:80`, port 80, is online,
   * carries the clock value of its own host as lastSeen, and a name that
   * contains "R_VOLUTION".
   */
  lemma SweepRecordShape(net: Network, clock: seq<int>, d: Device)
    requires |clock| == HostCount
    requires d in Sweep(net, clock, HostCount)
    ensures d.id == d.ipAddress + ":80" && d.port == 80 && d.isOnline
    ensures Contains(d.name, "R_VOLUTION")
    ensures exists i :: 1 <= i <= HostCount && d.ipAddress == HostAddress(i) && d.lastSeen == Some(clock[i - 1])
  {
    SweepMembers(net, clock, d);
    var i :| 1 <= i <= HostCount && HostOutcome(net, clock, i) == Some(d);
    DiscoveredNameMarked(d.ipAddress, net(StatusUrl(d.ipAddress, ScanPort)).bodyName);
    assert IntToString(80) == "80" by {
      assert NatToString(80) == NatToString(8) + [DigitChar(0)];
    }
  }

  lemma DeviceIdInjective(a: string, b: string, port: int)
    ensures DeviceId(a, port) == DeviceId(b, port) ==> a == b
  {
    if DeviceId(a, port) == DeviceId(b, port) {
      assert |a| == |b|;
      assert a == DeviceId(a, port)[..|a|];
      assert b == DeviceId(b, port)[..|b|];
    }
  }

  /** The text after the last ':' (all of it when there is none). */
  function AfterLastColon(s: string): string {
    if s == [] || s[|s| - 1] == ':' then [] else AfterLastColon(s[..|s| - 1]) + [s[|s| - 1]]
  }

  lemma {:induction false} AfterLastColonOf(head: string, tail: string)
    requires ':' !in tail
    ensures AfterLastColon(head + [':'] + tail) == tail
  {
    var s := head + [':'] + tail;
    if tail != [] {
      var init := tail[..|tail| - 1];
      assert s[..|s| - 1] == head + [':'] + init;
      AfterLastColonOf(head, init);
      assert tail == init + [tail[|tail| - 1]];
    } else {
      assert s[|s| - 1] == ':';
    }
  }

  /** The port is read back from an id: the part after its last ':'. */
  lemma DeviceIdPortInjective(a: string, b: string, p: int, q: int)
    ensures DeviceId(a, p) == DeviceId(b, q) ==> p == q
  {
    if DeviceId(a, p) == DeviceId(b, q) {
      IntToStringShape(p);
      IntToStringShape(q);
      var sp := IntToString(p);
      var sq := IntToString(q);
      assert DeviceId(a, p) == a + [':'] + sp && DeviceId(b, q) == b + [':'] + sq;
      AfterLastColonOf(a, sp);
      AfterLastColonOf(b, sq);
      IntToStringInjective(p, q);
    }
  }

  /** The addresses, and so the ids, of the returned records are pairwise distinct. */
  lemma SweepIdsDistinct(net: Network, clock: seq<int>)
    requires |clock| == HostCount
    ensures forall j, k :: 0 <= j < k < |Sweep(net, clock, HostCount)| ==>
              Sweep(net, clock, HostCount)[j].ipAddress != Sweep(net, clock, HostCount)[k].ipAddress &&
              Sweep(net, clock, HostCount)[j].id != Sweep(net, clock, HostCount)[k].id
  {
    var os := Outcomes(net, clock, HostCount);
    OutcomesAt(net, clock, HostCount);
    forall i, j | 0 <= i < j < |os| && os[i].Some? && os[j].Some?
      ensures os[i].value.ipAddress != os[j].value.ipAddress
    {
      HostAddressInjective(i + 1, j + 1);
    }
    KeptAddressesDistinct(os);
    var s := Sweep(net, clock, HostCount);
    forall j, k | 0 <= j < k < |s| ensures s[j].id != s[k].id {
      SweepRecordKeyed(net, clock, s[j]);
      SweepRecordKeyed(net, clock, s[k]);
      DeviceIdInjective(s[j].ipAddress, s[k].ipAddress, ScanPort);
    }
  }

  lemma SweepRecordKeyed(net: Network, clock: seq<int>, d: Device)
    requires |clock| == HostCount && d in Sweep(net, clock, HostCount)
    ensures d.id == DeviceId(d.ipAddress, ScanPort)
  {
    SweepMembers(net, clock, d);
  }

  /** onDeviceFound fires exactly once per returned record, in the same order. */
  lemma SweepFoundEvents(net: Network, clock: seq<int>)
    requires |clock| == HostCount
    ensures FoundDevices(SweepEvents(net, clock, HostCount)) == Sweep(net, clock, HostCount)
  {
    ReportedFound(Outcomes(net, clock, HostCount));
  }

  /** onProgress fires 254 times, with numerators 1, 2, ..., 254 in order, whatever the replies. */
  lemma SweepProgress(net: Network, clock: seq<int>)
    requires |clock| == HostCount
    ensures |ProgressSteps(SweepEvents(net, clock, HostCount))| == HostCount
    ensures forall k :: 0 <= k < HostCount ==> ProgressSteps(SweepEvents(net, clock, HostCount))[k] == k + 1
  {
    OutcomesAt(net, clock, HostCount);
    ReportedProgress(Outcomes(net, clock, HostCount));
  }

  /** When no host answers ok (all unreachable, all 404, ...), the sweep returns nothing. */
  lemma SilentNetworkFindsNothing(net: Network, clock: seq<int>)
    requires |clock| == HostCount
    requires forall i :: 1 <= i <= HostCount ==> !RespondsOk(net, StatusUrl(HostAddress(i), 80))
    ensures Sweep(net, clock, HostCount) == []
  {
    if Sweep(net, clock, HostCount) != [] {
      var d := Sweep(net, clock, HostCount)[0];
      SweepMembers(net, clock, d);
    }
  }

  // ---------------------------------------------------------------------
  // Single-address probe

  /**
   * checkDeviceAvailability: GET `http://${ip}:${port}/status`; true iff the
   * reply has an ok status, false on any thrown error or timeout.
   */
  function CheckDeviceAvailability(net: Network, ip: string, port: int): (available: bool)
    ensures available <==> RespondsOk(net, StatusUrl(ip, port))
  {
    match net(StatusUrl(ip, port))
    case Response(status, _) => IsOkStatus(status)
    case Failure => false
  }

  /**
   * createDeviceFromIP: null exactly when the address is not available;
   * otherwise a fresh online record with the default name.
   */
  function CreateDeviceFromIP(net: Network, ip: string, port: int, now: int): (r: Option<Device>)
    ensures r.None? <==> !CheckDeviceAvailability(net, ip, port)
    ensures r.Some? ==> WellKeyed(r.value) && r.value.ipAddress == ip && r.value.port == port
    ensures r.Some? ==> r.value.name == DefaultName(ip) && r.value.isOnline && r.value.lastSeen == Some(now)
  {
    if CheckDeviceAvailability(net, ip, port) then
      Some(Device(ip + ":" + IntToString(port), "R_VOLUTION (" + ip + ")", ip, port, true, Some(now)))
    else None
  }

  /** Two probes of the same address at different times give records that differ at most in lastSeen. */
  lemma CreateDeviceRepeatable(net: Network, ip: string, port: int, t1: int, t2: int)
    ensures CreateDeviceFromIP(net, ip, port, t1).Some? == CreateDeviceFromIP(net, ip, port, t2).Some?
    ensures CreateDeviceFromIP(net, ip, port, t1).Some? ==>
      CreateDeviceFromIP(net, ip, port, t1).value.(lastSeen := Some(t2)) == CreateDeviceFromIP(net, ip, port, t2).value
  {
  }

  /** 404 and 500 mean unavailable, 200 and 299 available, a thrown error unavailable. */
  lemma AvailabilityByStatus(net: Network, ip: string, port: int)
    ensures net(StatusUrl(ip, port)) == Response(404, None) ==> !CheckDeviceAvailability(net, ip, port)
    ensures net(StatusUrl(ip, port)) == Response(500, None) ==> !CheckDeviceAvailability(net, ip, port)
    ensures net(StatusUrl(ip, port)) == Response(200, None) ==> CheckDeviceAvailability(net, ip, port)
    ensures net(StatusUrl(ip, port)).Response? && net(StatusUrl(ip, port)).status == 299 ==> CheckDeviceAvailability(net, ip, port)
    ensures net(StatusUrl(ip, port)) == Failure ==> !CheckDeviceAvailability(net, ip, port)
  {
  }
}
