/** The ethernet configuration service (cable_guy/api/manager.py): which
    interfaces may be configured, how the addresses found on them are
    classified, and the sequence of kernel requests that configuring an
    interface makes.

    The kernel is observed and driven through pyroute2 and psutil; here the
    observations are inputs (the interfaces with their addresses, whether
    an address is permanent, the link statistics, the wifi interface
    names) and the requests are entries of a log. A request the kernel
    refuses is given with the exception it raises. The DHCP server is seen
    only as running or not. */
module CableGuy {
  import opened Base
  import DHCPServer

  // ---------------------------------------------------------------- names

  /** The fixed part of the blacklist. Each entry is a pattern that
      re.match anchors at the start of the name only, so "ham.*" and
      "docker.*" stand for the prefixes "ham" and "docker", and "lo" for
      the prefix "lo". */
  const FixedBlacklist: seq<string> := ["lo", "ham", "docker"]

  /** Whether some pattern is a prefix of the name. */
  function MatchesAnyPrefix(patterns: seq<string>, name: string): (r: bool)
    ensures r <==> exists k :: 0 <= k < |patterns| && StartsWith(name, patterns[k])
  {
    if patterns == [] then false
    else StartsWith(name, patterns[0]) || MatchesAnyPrefix(patterns[1..], name)
  }

  /** is_valid_interface_name: not empty, and matched by no blacklist
      pattern (the fixed ones, then the wifi interface names). */
  function IsValidInterfaceName(name: string, wifiNames: seq<string>): (r: bool)
    ensures r <==> name != [] && !MatchesAnyPrefix(FixedBlacklist + wifiNames, name)
  {
    if name == [] then false
    else !MatchesAnyPrefix(FixedBlacklist + wifiNames, name)
  }

  /** Because the patterns are anchored only at the start, a wifi name
      blacklists every name that begins with it, and "lo" every name that
      begins with "lo"; an ethernet name is accepted when no wifi name is a
      prefix of it. */
  lemma BlacklistIsByPrefix(wifiNames: seq<string>, name: string, suffix: string)
    ensures wifiNames != [] ==> !IsValidInterfaceName(wifiNames[0] + suffix, wifiNames)
    ensures !IsValidInterfaceName("lo" + suffix, wifiNames)
    ensures !IsValidInterfaceName("docker" + suffix, wifiNames)
    ensures (forall k :: 0 <= k < |wifiNames| ==> !StartsWith("eth0", wifiNames[k])) ==>
      IsValidInterfaceName("eth0", wifiNames)
  {
    var all := FixedBlacklist + wifiNames;
    if wifiNames != [] {
      assert all[3] == wifiNames[0];
      assert StartsWith(wifiNames[0] + suffix, all[3]);
    }
    assert all[0] == "lo" && StartsWith("lo" + suffix, all[0]);
    assert all[2] == "docker" && StartsWith("docker" + suffix, all[2]);
    if forall k :: 0 <= k < |wifiNames| ==> !StartsWith("eth0", wifiNames[k]) {
      forall k | 0 <= k < |all| ensures !StartsWith("eth0", all[k]) {
        if k < 3 {
          assert all[k] == FixedBlacklist[k];
          assert "eth0"[0] == 'e';
        } else {
          assert all[k] == wifiNames[k - 3];
        }
      }
    }
  }

  // ---------------------------------------------------------- weak ip check

  /** The regular expression \d+.\d+.\d+.\d+ matched at the start of the
      text: `groups` runs of digits, each pair separated by one character
      other than a newline (what `.` matches), and anything after. A run
      starts with one digit; AfterDigit then either extends it or, by
      backtracking, ends it at a separator. */
  predicate DigitGroups(s: string, groups: nat)
    decreases |s|
  {
    groups > 0 && |s| > 0 && IsDigit(s[0]) && AfterDigit(s[1..], groups)
  }

  predicate AfterDigit(t: string, groups: nat)
    decreases |t|
  {
    groups == 1
    || (|t| > 0 && t[0] != '\n' && groups > 1 && DigitGroups(t[1..], groups - 1))
    || (|t| > 0 && IsDigit(t[0]) && AfterDigit(t[1..], groups))
  }

  /** weak_is_ip_address. */
  predicate WeakIsIpAddress(ip: string)
  {
    DigitGroups(ip, 4)
  }

  lemma {:induction false} RunThenSeparator(digits: string, sep: char, rest: string, groups: nat)
    requires AllDigits(digits) && sep != '\n' && groups > 0 && DigitGroups(rest, groups)
    ensures AfterDigit(digits + [sep] + rest, groups + 1)
    decreases |digits|
  {
    var t := digits + [sep] + rest;
    if digits == [] {
      assert t[0] == sep && t[1..] == rest;
    } else {
      assert t[0] == digits[0] && t[1..] == digits[1..] + [sep] + rest;
      RunThenSeparator(digits[1..], sep, rest, groups);
    }
  }

  /** One more group in front: digits, a separator, and a matching rest. */
  lemma GroupInFront(digits: string, sep: char, rest: string, groups: nat)
    requires |digits| > 0 && AllDigits(digits) && sep != '\n' && groups > 0 && DigitGroups(rest, groups)
    ensures DigitGroups(digits + [sep] + rest, groups + 1)
  {
    var s := digits + [sep] + rest;
    assert s[0] == digits[0] && s[1..] == digits[1..] + [sep] + rest;
    RunThenSeparator(digits[1..], sep, rest, groups);
  }

  lemma LastGroup(digits: string)
    requires |digits| > 0 && AllDigits(digits)
    ensures DigitGroups(digits, 1)
  {
  }

  /** The match is a prefix match: whatever follows a matching text is
      ignored. */
  lemma {:induction false} DigitGroupsPrefix(s: string, t: string, groups: nat)
    requires DigitGroups(s, groups)
    ensures DigitGroups(s + t, groups)
    decreases |s|, 1
  {
    assert (s + t)[0] == s[0] && (s + t)[1..] == s[1..] + t;
    AfterDigitPrefix(s[1..], t, groups);
  }

  lemma {:induction false} AfterDigitPrefix(s: string, t: string, groups: nat)
    requires AfterDigit(s, groups)
    ensures AfterDigit(s + t, groups)
    decreases |s|, 0
  {
    if groups == 1 {
    } else if |s| > 0 && s[0] != '\n' && groups > 1 && DigitGroups(s[1..], groups - 1) {
      assert (s + t)[0] == s[0] && (s + t)[1..] == s[1..] + t;
      DigitGroupsPrefix(s[1..], t, groups - 1);
    } else {
      assert (s + t)[0] == s[0] && (s + t)[1..] == s[1..] + t;
      AfterDigitPrefix(s[1..], t, groups);
    }
  }

  /** Four non-empty digit runs joined with dots pass the check. */
  lemma DottedGroups(w: string, x: string, y: string, z: string)
    requires |w| > 0 && |x| > 0 && |y| > 0 && |z| > 0
    requires AllDigits(w) && AllDigits(x) && AllDigits(y) && AllDigits(z)
    ensures DigitGroups(w + ['.'] + (x + ['.'] + (y + ['.'] + z)), 4)
  {
    LastGroup(z);
    GroupInFront(y, '.', z, 1);
    GroupInFront(x, '.', y + ['.'] + z, 2);
    GroupInFront(w, '.', x + ['.'] + (y + ['.'] + z), 3);
  }

  /** Every dotted-decimal IPv4 address passes the check... */
  lemma DottedQuadIsWeakIp(ip: DHCPServer.IPv4)
    ensures WeakIsIpAddress(DHCPServer.IPv4String(ip))
  {
    var parts := DHCPServer.OctetStrings(ip);
    var w, x, y, z := parts[0], parts[1], parts[2], parts[3];
    DHCPServer.JoinFour(w, x, y, z, '.');
    assert DHCPServer.IPv4String(ip) == Join([w, x, y, z], '.');
    DottedGroups(w, x, y, z);
    assert w + ['.'] + x + ['.'] + y + ['.'] + z == w + ['.'] + (x + ['.'] + (y + ['.'] + z));
  }

  /** ...but so does text that is no address: any separator... */
  lemma WeakIpAcceptsAnySeparator()
    ensures WeakIsIpAddress("1a2b3c4")
  {
    LastGroup("4");
    GroupInFront("3", 'c', "4", 1);
    assert "3" + ['c'] + "4" == "3c4";
    GroupInFront("2", 'b', "3c4", 2);
    assert "2" + ['b'] + "3c4" == "2b3c4";
    GroupInFront("1", 'a', "2b3c4", 3);
    assert "1" + ['a'] + "2b3c4" == "1a2b3c4";
  }

  /** ...octets out of range... */
  lemma WeakIpAcceptsLargeGroups()
    ensures WeakIsIpAddress("999.9.9.9")
  {
    DottedGroups("999", "9", "9", "9");
    assert "999" + ['.'] + ("9" + ['.'] + ("9" + ['.'] + "9")) == "999.9.9.9";
  }

  /** ...and trailing text. */
  lemma WeakIpAcceptsTrailingText()
    ensures WeakIsIpAddress("1.2.3.4/24")
  {
    DottedGroups("1", "2", "3", "4");
    assert "1" + ['.'] + ("2" + ['.'] + ("3" + ['.'] + "4")) == "1.2.3.4";
    DigitGroupsPrefix("1.2.3.4", "/24", 4);
    assert "1.2.3.4" + "/24" == "1.2.3.4/24";
  }

  // ------------------------------------------------------------- addresses

  /** AddressMode, a str enum. */
  datatype AddressMode = Client | Server | Unmanaged

  datatype InterfaceAddress = InterfaceAddress(ip: string, mode: AddressMode)

  /** Link statistics from NDB: carrier state and carrier-down count. */
  datatype InterfaceInfo = InterfaceInfo(connected: bool, numberOfDisconnections: int)

  datatype EthernetInterface = EthernetInterface(name: string, addresses: seq<InterfaceAddress>,
                                                 info: Option<InterfaceInfo>)

  /** _is_server_address_present. */
  function ServerAddressPresent(iface: EthernetInterface): (r: bool)
    ensures r <==> exists k :: 0 <= k < |iface.addresses| && iface.addresses[k].mode == Server
  {
    HasServer(iface.addresses)
  }

  function HasServer(addresses: seq<InterfaceAddress>): (r: bool)
    ensures r <==> exists k :: 0 <= k < |addresses| && addresses[k].mode == Server
  {
    if addresses == [] then false
    else addresses[0].mode == Server || HasServer(addresses[1..])
  }

  // ------------------------------------------------------- get_interfaces

  datatype Family = Inet | OtherFamily

  /** An address as psutil.net_if_addrs reports it. */
  datatype OsAddress = OsAddress(family: Family, address: string)

  /** What the kernel shows: the interfaces in psutil's order with their
      addresses, which addresses are permanent (IFA_F_PERMANENT, the
      is_static_ip lookup), the link statistics of each interface, and the
      wifi interface names. */
  datatype Observation = Observation(
    interfaces: seq<(string, seq<OsAddress>)>,
    isStatic: string -> bool,
    infoOf: string -> InterfaceInfo,
    wifiNames: seq<string>)

  /** The address text kept for an IPv4 address: itself when it passes the
      weak check, "undefined" otherwise. */
  function ReportedIp(address: string): (r: string)
    ensures WeakIsIpAddress(address) ==> r == address
    ensures !WeakIsIpAddress(address) ==> r == "undefined"
  {
    if WeakIsIpAddress(address) then address else "undefined"
  }

  /** The mode of one address: Server when the DHCP server runs and the
      address is the gateway; otherwise Unmanaged when it is permanent and
      passed the check; otherwise Client. */
  function ModeOf(ip: string, validIp: bool, isStatic: bool, serverRunning: bool, gateway: string): (r: AddressMode)
    ensures r == Server <==> serverRunning && ip == gateway
    ensures r == Unmanaged <==> !(serverRunning && ip == gateway) && isStatic && validIp
  {
    if serverRunning && ip == gateway then Server
    else if isStatic && validIp then Unmanaged
    else Client
  }

  /** The IPv4 addresses of one interface, classified, in psutil's order. */
  function ClassifiedAddresses(addresses: seq<OsAddress>, obs: Observation, serverRunning: bool, gateway: string)
    : (r: seq<InterfaceAddress>)
    ensures |r| <= |addresses|
  {
    if addresses == [] then []
    else
      var rest := ClassifiedAddresses(addresses[1..], obs, serverRunning, gateway);
      if addresses[0].family != Inet then rest
      else
        var valid := WeakIsIpAddress(addresses[0].address);
        var ip := ReportedIp(addresses[0].address);
        [InterfaceAddress(ip, ModeOf(ip, valid, obs.isStatic(ip), serverRunning, gateway))] + rest
  }

  /** One address of the classification. */
  lemma ClassifiedAddressesStep(addresses: seq<OsAddress>, obs: Observation, serverRunning: bool, gateway: string)
    requires addresses != []
    ensures var a := addresses[0];
      var ip := ReportedIp(a.address);
      ClassifiedAddresses(addresses, obs, serverRunning, gateway)
        == (if a.family != Inet then []
            else [InterfaceAddress(ip, ModeOf(ip, WeakIsIpAddress(a.address), obs.isStatic(ip), serverRunning, gateway))])
           + ClassifiedAddresses(addresses[1..], obs, serverRunning, gateway)
  {
  }

  /** The text was reported for one of the interface's IPv4 addresses. */
  predicate ReportedFromInet(addresses: seq<OsAddress>, ip: string)
  {
    exists j :: 0 <= j < |addresses| && addresses[j].family == Inet && ip == ReportedIp(addresses[j].address)
  }

  /** Every reported address came from an IPv4 address of the interface,
      and every IPv4 address is reported. */
  lemma {:induction false} ClassifiedAddressesComplete(addresses: seq<OsAddress>, obs: Observation,
                                                       serverRunning: bool, gateway: string)
    ensures var r := ClassifiedAddresses(addresses, obs, serverRunning, gateway);
      forall k :: 0 <= k < |r| ==> ReportedFromInet(addresses, r[k].ip)
    ensures |ClassifiedAddresses(addresses, obs, serverRunning, gateway)| == InetCount(addresses)
  {
    if addresses != [] {
      ClassifiedAddressesComplete(addresses[1..], obs, serverRunning, gateway);
      var rest := ClassifiedAddresses(addresses[1..], obs, serverRunning, gateway);
      var r := ClassifiedAddresses(addresses, obs, serverRunning, gateway);
      forall k | 0 <= k < |r| ensures ReportedFromInet(addresses, r[k].ip) {
        if addresses[0].family == Inet && k == 0 {
          assert 0 <= 0 < |addresses| && addresses[0].family == Inet && r[k].ip == ReportedIp(addresses[0].address);
        } else {
          var k' := if addresses[0].family == Inet then k - 1 else k;
          assert r[k] == rest[k'];
          assert ReportedFromInet(addresses[1..], rest[k'].ip);
          var j' :| 0 <= j' < |addresses[1..]| && addresses[1..][j'].family == Inet
                    && rest[k'].ip == ReportedIp(addresses[1..][j'].address);
          assert addresses[j' + 1] == addresses[1..][j'];
          assert 0 <= j' + 1 < |addresses| && addresses[j' + 1].family == Inet
                 && r[k].ip == ReportedIp(addresses[j' + 1].address);
        }
      }
    }
  }

  function InetCount(addresses: seq<OsAddress>): nat
  {
    if addresses == [] then 0
    else (if addresses[0].family == Inet then 1 else 0) + InetCount(addresses[1..])
  }

  predicate IsVeth(name: string)
  {
    StartsWith(name, "veth")
  }

  /** get_interfaces as written: `info` is assigned only inside the loop
      over an interface's IPv4 addresses, so an interface without one is
      reported with the info of the last earlier interface that had one,
      and if there is none, reading it raises UnboundLocalError. `last` is
      the value `info` holds when the remaining interfaces are reached. */
  function InterfacesAsWritten(ifaces: seq<(string, seq<OsAddress>)>, last: Option<InterfaceInfo>,
                               obs: Observation, serverRunning: bool, gateway: string)
    : (r: Result<seq<EthernetInterface>>)
    ensures r.Err? ==> r.error == UnboundLocalError
  {
    if ifaces == [] then Ok([])
    else
      var (name, addresses) := ifaces[0];
      if IsVeth(name) then InterfacesAsWritten(ifaces[1..], last, obs, serverRunning, gateway)
      else
        var info := if InetCount(addresses) > 0 then Some(obs.infoOf(name)) else last;
        if info.None? then Err(UnboundLocalError)
        else
          var rest := InterfacesAsWritten(ifaces[1..], info, obs, serverRunning, gateway);
          if rest.Err? then rest
          else
            var data := EthernetInterface(name, ClassifiedAddresses(addresses, obs, serverRunning, gateway), info);
            if IsValidInterfaceName(name, obs.wifiNames) then Ok([data] + rest.value) else rest
  }

  /** get_interfaces as intended: every interface carries its own link
      statistics. */
  function Interfaces(ifaces: seq<(string, seq<OsAddress>)>, obs: Observation, serverRunning: bool, gateway: string)
    : (r: seq<EthernetInterface>)
    ensures |r| <= |ifaces|
    ensures forall k :: 0 <= k < |r| ==> IsValidInterfaceName(r[k].name, obs.wifiNames) && !IsVeth(r[k].name)
    ensures forall k :: 0 <= k < |r| ==> r[k].info == Some(obs.infoOf(r[k].name))
  {
    if ifaces == [] then []
    else
      var (name, addresses) := ifaces[0];
      var rest := Interfaces(ifaces[1..], obs, serverRunning, gateway);
      if IsVeth(name) || !IsValidInterfaceName(name, obs.wifiNames) then rest
      else [EthernetInterface(name, ClassifiedAddresses(addresses, obs, serverRunning, gateway),
                              Some(obs.infoOf(name)))] + rest
  }

  /** One interface of the listing. */
  lemma InterfacesStep(ifaces: seq<(string, seq<OsAddress>)>, obs: Observation, serverRunning: bool, gateway: string)
    requires ifaces != []
    ensures var (name, addresses) := ifaces[0];
      Interfaces(ifaces, obs, serverRunning, gateway)
        == (if IsVeth(name) || !IsValidInterfaceName(name, obs.wifiNames) then []
            else [EthernetInterface(name, ClassifiedAddresses(addresses, obs, serverRunning, gateway),
                                    Some(obs.infoOf(name)))])
           + Interfaces(ifaces[1..], obs, serverRunning, gateway)
  {
  }

  /** Every interface that is neither virtual nor blacklisted is listed. */
  lemma {:induction false} InterfacesListsEveryValidInterface(ifaces: seq<(string, seq<OsAddress>)>, obs: Observation,
                                                              serverRunning: bool, gateway: string, j: int)
    requires 0 <= j < |ifaces| && !IsVeth(ifaces[j].0) && IsValidInterfaceName(ifaces[j].0, obs.wifiNames)
    ensures exists k :: 0 <= k < |Interfaces(ifaces, obs, serverRunning, gateway)|
                        && Interfaces(ifaces, obs, serverRunning, gateway)[k].name == ifaces[j].0
    decreases j
  {
    var r := Interfaces(ifaces, obs, serverRunning, gateway);
    var rest := Interfaces(ifaces[1..], obs, serverRunning, gateway);
    if j == 0 {
      assert r[0].name == ifaces[0].0;
    } else {
      InterfacesListsEveryValidInterface(ifaces[1..], obs, serverRunning, gateway, j - 1);
      var k :| 0 <= k < |rest| && rest[k].name == ifaces[1..][j - 1].0;
      if IsVeth(ifaces[0].0) || !IsValidInterfaceName(ifaces[0].0, obs.wifiNames) {
        assert r[k] == rest[k];
      } else {
        assert r[k + 1] == rest[k];
      }
    }
  }

  /** When every real interface has an IPv4 address the two agree. */
  lemma {:induction false} InterfacesAgreeWithIPv4Everywhere(ifaces: seq<(string, seq<OsAddress>)>,
                                                             last: Option<InterfaceInfo>, obs: Observation,
                                                             serverRunning: bool, gateway: string)
    requires forall k :: 0 <= k < |ifaces| && !IsVeth(ifaces[k].0) ==> InetCount(ifaces[k].1) > 0
    ensures InterfacesAsWritten(ifaces, last, obs, serverRunning, gateway) == Ok(Interfaces(ifaces, obs, serverRunning, gateway))
  {
    if ifaces != [] {
      var name := ifaces[0].0;
      var next := if IsVeth(name) then last else Some(obs.infoOf(name));
      InterfacesAgreeWithIPv4Everywhere(ifaces[1..], next, obs, serverRunning, gateway);
    }
  }

  /** An interface with only an IPv6 address, listed after the loopback
      interface, is reported with the loopback's link statistics; listed
      first, it makes the call raise. */
  lemma InterfaceInfoLeaks(obs: Observation, serverRunning: bool, gateway: string)
    requires obs.wifiNames == [] && obs.infoOf("lo") != obs.infoOf("eth0")
    ensures var lo := ("lo", [OsAddress(Inet, "127.0.0.1")]);
      var eth := ("eth0", [OsAddress(OtherFamily, "fe80::1")]);
      var asWritten := InterfacesAsWritten([lo, eth], None, obs, serverRunning, gateway);
      var intended := Interfaces([lo, eth], obs, serverRunning, gateway);
      && asWritten.Ok? && |asWritten.value| == 1 && asWritten.value[0].info == Some(obs.infoOf("lo"))
      && |intended| == 1 && intended[0].info == Some(obs.infoOf("eth0"))
      && InterfacesAsWritten([eth], None, obs, serverRunning, gateway) == Err(UnboundLocalError)
  {
    var lo := ("lo", [OsAddress(Inet, "127.0.0.1")]);
    var eth := ("eth0", [OsAddress(OtherFamily, "fe80::1")]);
    assert !IsValidInterfaceName("lo", []) by {
      BlacklistIsByPrefix([], "lo", "");
      assert "lo" + "" == "lo";
    }
    assert IsValidInterfaceName("eth0", []) by {
      BlacklistIsByPrefix([], "eth0", "");
    }
    assert !IsVeth("lo") && !IsVeth("eth0");
    assert InetCount(eth.1) == 0 by {
      assert eth.1[1..] == [];
    }
    assert InetCount(lo.1) == 1 by {
      assert lo.1[1..] == [];
    }
    assert [lo, eth][1..] == [eth];
    assert [eth][1..] == [];
    assert InterfacesAsWritten([], Some(obs.infoOf("lo")), obs, serverRunning, gateway) == Ok([]);
    var last := Some(obs.infoOf("lo"));
    var tail := InterfacesAsWritten([eth], last, obs, serverRunning, gateway);
    assert tail.Ok? && |tail.value| == 1 && tail.value[0].info == last;
    assert InterfacesAsWritten([lo, eth], None, obs, serverRunning, gateway) == tail;
    assert Interfaces([eth], obs, serverRunning, gateway)
      == [EthernetInterface("eth0", ClassifiedAddresses(eth.1, obs, serverRunning, gateway), Some(obs.infoOf("eth0")))];
  }
}

/** The kernel requests of cable_guy's EthernetManager: flushing, adding and
    deleting addresses, taking a link down and up to trigger DHCP, and
    starting or stopping the DHCP server. Every operation reads the
    interfaces through get_interfaces; here that list is one snapshot
    per call, an input. */
module CableGuyManager {
  import opened Base
  import opened CableGuy

  datatype NetAction =
    | FlushAddresses(name: string)
    | DeleteAddress(name: string, ip: string)
    | AddAddress(name: string, ip: string)
    | LinkDown(name: string)
    | LinkUp(name: string)
    | StopServer
    | StartServer

  /** What the manager has done: whether the DHCP server runs, and the
      requests made so far, oldest first. */
  datatype Net = Net(serverRunning: bool, log: seq<NetAction>)

  datatype Step = Step(net: Net, outcome: Outcome)

  /** One kernel request: a refused request raises its exception and
      changes nothing. */
  function Request(n: Net, a: NetAction, refused: map<NetAction, Error>): Step
  {
    if a in refused then Step(n, Fail(refused[a])) else Step(n.(log := n.log + [a]), Pass)
  }

  /** Dnsmasq.stop on a running server. */
  function StopServerNet(n: Net): Net
  {
    Net(false, n.log + [StopServer])
  }

  /** get_interface_by_name: the first interface of that name. */
  function FindInterface(snapshot: seq<EthernetInterface>, name: string): (r: Option<EthernetInterface>)
    ensures r.None? <==> forall k :: 0 <= k < |snapshot| ==> snapshot[k].name != name
    ensures r.Some? ==> r.value in snapshot && r.value.name == name
  {
    if snapshot == [] then None
    else if snapshot[0].name == name then Some(snapshot[0])
    else FindInterface(snapshot[1..], name)
  }

  /** remove_ip: stop a running DHCP server when the interface has a server
      address, then delete the address; every error is a ValueError. */
  function RemoveIp(n: Net, snapshot: seq<EthernetInterface>, name: string, ip: string,
                    refused: map<NetAction, Error>): (r: Step)
    ensures r.outcome.Fail? ==> r.outcome.error == ValueError
    ensures FindInterface(snapshot, name).None? ==> r == Step(n, Fail(ValueError))
    ensures r.outcome.Pass? <==> FindInterface(snapshot, name).Some? && DeleteAddress(name, ip) !in refused
    ensures r.net.serverRunning ==> n.serverRunning
    ensures n.log <= r.net.log
  {
    var iface := FindInterface(snapshot, name);
    if iface.None? then Step(n, Fail(ValueError))
    else
      var n1 := if ServerAddressPresent(iface.value) && n.serverRunning then StopServerNet(n) else n;
      var s := Request(n1, DeleteAddress(name, ip), refused);
      if s.outcome.Fail? then Step(s.net, Fail(ValueError)) else s
  }

  /** remove_ip's requests: at most a server stop and the deletion, and a
      successful removal ends with exactly one deletion of the address. */
  lemma RemoveIpRequests(n: Net, snapshot: seq<EthernetInterface>, name: string, ip: string,
                         refused: map<NetAction, Error>)
    ensures var r := RemoveIp(n, snapshot, name, ip, refused);
      && OnlyRemovals(r.net.log[|n.log|..], name, ip)
      && (r.outcome.Pass? ==> |r.net.log| > |n.log| && r.net.log[|r.net.log| - 1] == DeleteAddress(name, ip))
      && (r.outcome.Pass? ==> CountDeletes(r.net.log[|n.log|..], name, ip) == 1)
  {
    var r := RemoveIp(n, snapshot, name, ip, refused);
    var iface := FindInterface(snapshot, name);
    var d := DeleteAddress(name, ip);
    if iface.None? {
      assert r.net.log[|n.log|..] == [];
    } else {
      var stops := ServerAddressPresent(iface.value) && n.serverRunning;
      var added: seq<NetAction> := if stops then [StopServer] else [];
      assert CountDeletes(added, name, ip) == 0 by {
        if stops {
          assert added[1..] == [];
        }
      }
      if d in refused {
        assert r.net.log == n.log + added;
        assert r.net.log[|n.log|..] == added;
      } else {
        assert r.net.log == n.log + added + [d];
        assert r.net.log[|n.log|..] == added + [d];
        assert CountDeletes([d], name, ip) == 1 by {
          assert [d][1..] == [];
        }
        CountDeletesAppend(added, [d], name, ip);
      }
    }
  }

  /** The requests are deletions of the address, or stops of the server. */
  predicate OnlyRemovals(actions: seq<NetAction>, name: string, ip: string)
  {
    forall k :: 0 <= k < |actions| ==> actions[k] == DeleteAddress(name, ip) || actions[k] == StopServer
  }

  function CountMatching(addresses: seq<InterfaceAddress>, ip: string): nat
  {
    if addresses == [] then 0
    else (if addresses[0].ip == ip then 1 else 0) + CountMatching(addresses[1..], ip)
  }

  function CountDeletes(log: seq<NetAction>, name: string, ip: string): nat
  {
    if log == [] then 0
    else (if log[0] == DeleteAddress(name, ip) then 1 else 0) + CountDeletes(log[1..], name, ip)
  }

  lemma {:induction false} CountDeletesAppend(a: seq<NetAction>, b: seq<NetAction>, name: string, ip: string)
    ensures CountDeletes(a + b, name, ip) == CountDeletes(a, name, ip) + CountDeletes(b, name, ip)
  {
    if a == [] {
      assert a + b == b;
    } else {
      assert (a + b)[0] == a[0];
      assert (a + b)[1..] == a[1..] + b;
      CountDeletesAppend(a[1..], b, name, ip);
    }
  }

  lemma OnlyRemovalsAppend(a: seq<NetAction>, b: seq<NetAction>, name: string, ip: string)
    requires OnlyRemovals(a, name, ip) && OnlyRemovals(b, name, ip)
    ensures OnlyRemovals(a + b, name, ip)
  {
    forall k | 0 <= k < |a + b|
      ensures (a + b)[k] == DeleteAddress(name, ip) || (a + b)[k] == StopServer
    {
      if k < |a| {
        assert (a + b)[k] == a[k];
      } else {
        assert (a + b)[k] == b[k - |a|];
      }
    }
  }

  /** Two runs of removals, one after the other, make one. */
  lemma RemovalsThen(x: seq<NetAction>, y: seq<NetAction>, z: seq<NetAction>, name: string, ip: string)
    requires x <= y <= z
    requires OnlyRemovals(y[|x|..], name, ip) && OnlyRemovals(z[|y|..], name, ip)
    ensures OnlyRemovals(z[|x|..], name, ip)
    ensures CountDeletes(z[|x|..], name, ip) == CountDeletes(y[|x|..], name, ip) + CountDeletes(z[|y|..], name, ip)
  {
    assert z[|x|..] == y[|x|..] + z[|y|..];
    CountDeletesAppend(y[|x|..], z[|y|..], name, ip);
    OnlyRemovalsAppend(y[|x|..], z[|y|..], name, ip);
  }

  /** The removal loop of add_ip: remove_ip once for every listed address
      equal to the new one, stopping at the first error. */
  function RemoveMatching(n: Net, snapshot: seq<EthernetInterface>, name: string, ip: string,
                          addresses: seq<InterfaceAddress>, refused: map<NetAction, Error>): (r: Step)
    ensures r.outcome.Fail? ==> r.outcome.error == ValueError
    ensures n.log <= r.net.log
    ensures r.net.serverRunning ==> n.serverRunning
    decreases |addresses|
  {
    if addresses == [] then Step(n, Pass)
    else if addresses[0].ip != ip then RemoveMatching(n, snapshot, name, ip, addresses[1..], refused)
    else
      var s := RemoveIp(n, snapshot, name, ip, refused);
      if s.outcome.Fail? then s
      else RemoveMatching(s.net, snapshot, name, ip, addresses[1..], refused)
  }

  /** The removal loop only deletes the address (stopping the server on the
      way), and on success it has deleted it once per listed copy. */
  lemma {:induction false} RemoveMatchingDeletes(n: Net, snapshot: seq<EthernetInterface>, name: string, ip: string,
                                                 addresses: seq<InterfaceAddress>, refused: map<NetAction, Error>)
    ensures var r := RemoveMatching(n, snapshot, name, ip, addresses, refused);
      && OnlyRemovals(r.net.log[|n.log|..], name, ip)
      && (r.outcome.Pass? ==> CountDeletes(r.net.log[|n.log|..], name, ip) == CountMatching(addresses, ip))
    decreases |addresses|
  {
    var r := RemoveMatching(n, snapshot, name, ip, addresses, refused);
    if addresses == [] {
      assert r.net.log[|n.log|..] == [];
    } else if addresses[0].ip != ip {
      RemoveMatchingDeletes(n, snapshot, name, ip, addresses[1..], refused);
    } else {
      var s := RemoveIp(n, snapshot, name, ip, refused);
      RemoveIpRequests(n, snapshot, name, ip, refused);
      if s.outcome.Pass? {
        RemoveMatchingDeletes(s.net, snapshot, name, ip, addresses[1..], refused);
        RemovalsThen(n.log, s.net.log, r.net.log, name, ip);
      } else {
        assert r == s;
      }
    }
  }

  /** The address add_ip works with: the DHCP gateway for a server address
      given without one, else the address given. */
  function ParsedIp(mode: AddressMode, ip: Option<string>, gateway: string): (r: Option<string>)
    ensures mode == Server && (ip.None? || ip == Some("")) ==> r == Some(gateway)
    ensures !(mode == Server && (ip.None? || ip == Some(""))) ==> r == ip
  {
    if (ip.None? || ip.value == "") && mode == Server then Some(gateway) else ip
  }

  /** The check add_ip makes before touching anything: `parsed_ip is None
      or parsed_ip == "" and mode in [Unmanaged, Server]`. */
  predicate MissingIp(parsed: Option<string>, mode: AddressMode)
  {
    parsed.None? || (parsed.value == "" && mode in {Unmanaged, Server})
  }

  /** One pass of add_ip's removal loop. */
  lemma RemoveMatchingStep(n: Net, snapshot: seq<EthernetInterface>, name: string, ip: string,
                           addresses: seq<InterfaceAddress>, refused: map<NetAction, Error>)
    requires addresses != []
    ensures var s := RemoveIp(n, snapshot, name, ip, refused);
      RemoveMatching(n, snapshot, name, ip, addresses, refused)
        == if addresses[0].ip != ip then RemoveMatching(n, snapshot, name, ip, addresses[1..], refused)
           else if s.outcome.Fail? then s
           else RemoveMatching(s.net, snapshot, name, ip, addresses[1..], refused)
  {
  }

  /** The requests add_ip makes once the equal addresses are removed. */
  function AddAfterRemoval(n: Net, name: string, mode: AddressMode, ip: string,
                           refused: map<NetAction, Error>, spawnOk: bool): Step
  {
    match mode
    case Client =>
      var down := Request(n, LinkDown(name), refused);
      if down.outcome.Fail? then Step(down.net, Fail(ValueError))
      else
        var up := Request(down.net, LinkUp(name), refused);
        if up.outcome.Fail? then Step(up.net, Fail(ValueError)) else up
    case Server =>
      var add := Request(n, AddAddress(name, ip), refused);
      if add.outcome.Fail? then Step(add.net, Fail(ValueError))
      else if add.net.serverRunning then add
      else Step(Net(spawnOk, add.net.log + [StartServer]), Pass)
    case Unmanaged =>
      var add := Request(n, AddAddress(name, ip), refused);
      if add.outcome.Fail? then Step(add.net, Fail(ValueError)) else add
  }

  /** add_ip: look the interface up, refuse a missing address, remove equal
      addresses, then ask DHCP for a client address, or set the static
      address (starting the DHCP server for a server address); every error
      becomes ValueError. `spawnOk` says whether starting dnsmasq works. */
  function AddIp(n: Net, snapshot: seq<EthernetInterface>, gateway: string, name: string, mode: AddressMode,
                 ip: Option<string>, refused: map<NetAction, Error>, spawnOk: bool): (r: Step)
    ensures r.outcome.Fail? ==> r.outcome.error == ValueError
    ensures n.log <= r.net.log
    ensures FindInterface(snapshot, name).None? || MissingIp(ParsedIp(mode, ip, gateway), mode) ==>
      r == Step(n, Fail(ValueError))
    ensures mode != Server ==> (r.net.serverRunning ==> n.serverRunning)
  {
    var parsed := ParsedIp(mode, ip, gateway);
    var iface := FindInterface(snapshot, name);
    if iface.None? || MissingIp(parsed, mode) then Step(n, Fail(ValueError))
    else
      var s := RemoveMatching(n, snapshot, name, parsed.value, iface.value.addresses, refused);
      if s.outcome.Fail? then s
      else AddAfterRemoval(s.net, name, mode, parsed.value, refused, spawnOk)
  }

  /** The requests after the removal loop, mode by mode. */
  lemma AfterRemovalRequests(m: Net, name: string, mode: AddressMode, ip: string,
                             refused: map<NetAction, Error>, spawnOk: bool)
    requires AddAfterRemoval(m, name, mode, ip, refused, spawnOk).outcome.Pass?
    ensures var t := AddAfterRemoval(m, name, mode, ip, refused, spawnOk);
      && (mode == Client ==> t.net.log == m.log + [LinkDown(name), LinkUp(name)])
      && (mode == Unmanaged ==> t.net.log == m.log + [AddAddress(name, ip)])
      && (mode == Server && m.serverRunning ==> t.net == Net(true, m.log + [AddAddress(name, ip)]))
      && (mode == Server && !m.serverRunning ==> t.net == Net(spawnOk, m.log + [AddAddress(name, ip), StartServer]))
  {
  }

  /** What a successful add_ip leaves: every equal address deleted first;
      then a client address ends with the link taken down and up, a static
      address ends with its add, and a server address has its add followed
      by a server start unless the server was already running. */
  lemma AddIpEffects(n: Net, snapshot: seq<EthernetInterface>, gateway: string, name: string, mode: AddressMode,
                     ip: Option<string>, refused: map<NetAction, Error>, spawnOk: bool)
    requires AddIp(n, snapshot, gateway, name, mode, ip, refused, spawnOk).outcome.Pass?
    ensures var r := AddIp(n, snapshot, gateway, name, mode, ip, refused, spawnOk);
      var parsed := ParsedIp(mode, ip, gateway);
      var L := r.net.log;
      && FindInterface(snapshot, name).Some? && parsed.Some?
      && (mode == Client ==> |L| >= |n.log| + 2 && L[|L| - 2..] == [LinkDown(name), LinkUp(name)])
      && (mode == Unmanaged ==> |L| > |n.log| && L[|L| - 1] == AddAddress(name, parsed.value))
      && (mode == Server ==> r.net.serverRunning || (!spawnOk && L[|L| - 1] == StartServer))
      && (mode == Server ==> AddAddress(name, parsed.value) in L[|n.log|..])
      && (mode == Server ==> (r.net.serverRunning <==> spawnOk || L[|L| - 1] == AddAddress(name, parsed.value)))
      && exists m :: |n.log| <= m <= |L| &&
           CountDeletes(L[|n.log|..m], name, parsed.value)
             == CountMatching(FindInterface(snapshot, name).value.addresses, parsed.value)
  {
    var parsed := ParsedIp(mode, ip, gateway);
    var iface := FindInterface(snapshot, name);
    var s := RemoveMatching(n, snapshot, name, parsed.value, iface.value.addresses, refused);
    var r := AddIp(n, snapshot, gateway, name, mode, ip, refused, spawnOk);
    assert r == AddAfterRemoval(s.net, name, mode, parsed.value, refused, spawnOk);
    RemoveMatchingDeletes(n, snapshot, name, parsed.value, iface.value.addresses, refused);
    AfterRemovalRequests(s.net, name, mode, parsed.value, refused, spawnOk);
    var L := r.net.log;
    var k := |s.net.log|;
    assert L[..k] == s.net.log;
    if mode == Server {
      assert L[k] == AddAddress(name, parsed.value);
      assert L[|n.log|..][k - |n.log|] == AddAddress(name, parsed.value);
    }
    assert L[|n.log|..k] == s.net.log[|n.log|..];
  }

  /** The loop of set_configuration: add_ip for each address in order,
      stopping at the first error. Each add_ip reads the interfaces afresh;
      `views[i]` is what the i-th one reads. */
  function AddIps(n: Net, views: seq<seq<EthernetInterface>>, gateway: string, name: string,
                  addresses: seq<InterfaceAddress>, refused: map<NetAction, Error>, spawnOk: bool): (r: Step)
    requires |views| == |addresses|
    ensures r.outcome.Fail? ==> r.outcome.error == ValueError
    ensures n.log <= r.net.log
    ensures !HasServer(addresses) ==> (r.net.serverRunning ==> n.serverRunning)
    decreases |addresses|
  {
    if addresses == [] then Step(n, Pass)
    else
      var s := AddIp(n, views[0], gateway, name, addresses[0].mode, Some(addresses[0].ip), refused, spawnOk);
      if s.outcome.Fail? then s
      else AddIps(s.net, views[1..], gateway, name, addresses[1..], refused, spawnOk)
  }

  /** set_configuration: an unknown interface name in `snapshot`, the list
      read first, is refused before anything is done; otherwise flush the
      interface, add its addresses in order, each add reading its own view
      of the interfaces, and stop the DHCP server when no address is a
      server address. */
  function SetConfiguration(n: Net, snapshot: seq<EthernetInterface>, views: seq<seq<EthernetInterface>>,
                            gateway: string, iface: EthernetInterface,
                            refused: map<NetAction, Error>, spawnOk: bool): (r: Step)
    requires |views| == |iface.addresses|
    ensures (forall k :: 0 <= k < |snapshot| ==> snapshot[k].name != iface.name) ==> r == Step(n, Fail(ValueError))
    ensures n.log <= r.net.log
    ensures |r.net.log| > |n.log| ==> r.net.log[|n.log|] == FlushAddresses(iface.name)
    ensures r.outcome.Pass? && !ServerAddressPresent(iface) ==> !r.net.serverRunning
    ensures r.outcome.Pass? ==> |r.net.log| > |n.log|
  {
    if FindInterface(snapshot, iface.name).None? then Step(n, Fail(ValueError))
    else
      var flushed := Request(n, FlushAddresses(iface.name), refused);
      if flushed.outcome.Fail? then flushed
      else
        var s := AddIps(flushed.net, views, gateway, iface.name, iface.addresses, refused, spawnOk);
        assert s.net.log[|n.log|] == flushed.net.log[|n.log|];
        if s.outcome.Fail? then s
        else if !ServerAddressPresent(iface) && s.net.serverRunning then Step(StopServerNet(s.net), Pass)
        else s
  }

  /** The steps of set_configuration once the interface is known and the
      flush is accepted. */
  lemma SetConfigurationSteps(n: Net, snapshot: seq<EthernetInterface>, views: seq<seq<EthernetInterface>>,
                              gateway: string, iface: EthernetInterface,
                              refused: map<NetAction, Error>, spawnOk: bool)
    requires |views| == |iface.addresses|
    requires FindInterface(snapshot, iface.name).Some? && FlushAddresses(iface.name) !in refused
    ensures var s := AddIps(Net(n.serverRunning, n.log + [FlushAddresses(iface.name)]), views, gateway,
                            iface.name, iface.addresses, refused, spawnOk);
      SetConfiguration(n, snapshot, views, gateway, iface, refused, spawnOk)
        == if s.outcome.Fail? then s
           else if !ServerAddressPresent(iface) && s.net.serverRunning then Step(StopServerNet(s.net), Pass)
           else s
  {
  }

  /** One pass of set_configuration's loop. */
  lemma AddIpsStep(n: Net, views: seq<seq<EthernetInterface>>, gateway: string, name: string,
                   addresses: seq<InterfaceAddress>, refused: map<NetAction, Error>, spawnOk: bool)
    requires addresses != [] && |views| == |addresses|
    ensures var s := AddIp(n, views[0], gateway, name, addresses[0].mode, Some(addresses[0].ip), refused, spawnOk);
      AddIps(n, views, gateway, name, addresses, refused, spawnOk)
        == if s.outcome.Fail? then s else AddIps(s.net, views[1..], gateway, name, addresses[1..], refused, spawnOk)
  {
  }

  /** No request of the list deletes an address. */
  predicate NoDeletes(actions: seq<NetAction>)
  {
    forall k :: 0 <= k < |actions| ==> !actions[k].DeleteAddress?
  }

  /** Each view shows the interface, and none of its addresses equals the
      address the matching add_ip works with: what the interface looks like
      right after its flush, before anything equal is added again. */
  predicate FlushedViews(views: seq<seq<EthernetInterface>>, gateway: string, name: string,
                         addresses: seq<InterfaceAddress>)
  {
    && |views| == |addresses|
    && forall i :: 0 <= i < |views| ==>
         && FindInterface(views[i], name).Some?
         && CountMatching(FindInterface(views[i], name).value.addresses,
                          ParsedIp(addresses[i].mode, Some(addresses[i].ip), gateway).value) == 0
  }

  /** With no equal address listed, add_ip's removal loop does nothing. */
  lemma {:induction false} NothingToRemove(n: Net, snapshot: seq<EthernetInterface>, name: string, ip: string,
                                           addresses: seq<InterfaceAddress>, refused: map<NetAction, Error>)
    requires CountMatching(addresses, ip) == 0
    ensures RemoveMatching(n, snapshot, name, ip, addresses, refused) == Step(n, Pass)
    decreases |addresses|
  {
    if addresses != [] {
      NothingToRemove(n, snapshot, name, ip, addresses[1..], refused);
    }
  }

  /** The requests after the removal loop never delete an address. */
  lemma AfterRemovalNoDeletes(m: Net, name: string, mode: AddressMode, ip: string,
                              refused: map<NetAction, Error>, spawnOk: bool)
    ensures var t := AddAfterRemoval(m, name, mode, ip, refused, spawnOk);
      m.log <= t.net.log && NoDeletes(t.net.log[|m.log|..])
  {
  }

  lemma NoDeletesThen(x: seq<NetAction>, y: seq<NetAction>, z: seq<NetAction>)
    requires x <= y <= z && NoDeletes(y[|x|..]) && NoDeletes(z[|y|..])
    ensures NoDeletes(z[|x|..])
  {
    forall k | 0 <= k < |z[|x|..]| ensures !z[|x|..][k].DeleteAddress? {
      if k < |y| - |x| {
        assert z[|x|..][k] == y[|x|..][k];
      } else {
        assert z[|x|..][k] == z[|y|..][k - (|y| - |x|)];
      }
    }
  }

  /** On flushed views, the add loop deletes nothing. */
  lemma {:induction false} AddIpsOnFlushedViews(n: Net, views: seq<seq<EthernetInterface>>, gateway: string,
                                                name: string, addresses: seq<InterfaceAddress>,
                                                refused: map<NetAction, Error>, spawnOk: bool)
    requires FlushedViews(views, gateway, name, addresses)
    ensures NoDeletes(AddIps(n, views, gateway, name, addresses, refused, spawnOk).net.log[|n.log|..])
    decreases |addresses|
  {
    var r := AddIps(n, views, gateway, name, addresses, refused, spawnOk);
    if addresses == [] {
      assert r.net.log[|n.log|..] == [];
    } else {
      var mode := addresses[0].mode;
      var parsed := ParsedIp(mode, Some(addresses[0].ip), gateway);
      var iface := FindInterface(views[0], name);
      NothingToRemove(n, views[0], name, parsed.value, iface.value.addresses, refused);
      AfterRemovalNoDeletes(n, name, mode, parsed.value, refused, spawnOk);
      var s := AddIp(n, views[0], gateway, name, mode, Some(addresses[0].ip), refused, spawnOk);
      if !MissingIp(parsed, mode) {
        assert s == AddAfterRemoval(n, name, mode, parsed.value, refused, spawnOk);
      }
      if s.outcome.Fail? {
        assert r == s;
        if MissingIp(parsed, mode) {
          assert r.net.log[|n.log|..] == [];
        }
      } else {
        assert FlushedViews(views[1..], gateway, name, addresses[1..]) by {
          forall i | 0 <= i < |views[1..]|
            ensures FindInterface(views[1..][i], name).Some?
            ensures CountMatching(FindInterface(views[1..][i], name).value.addresses,
                                  ParsedIp(addresses[1..][i].mode, Some(addresses[1..][i].ip), gateway).value) == 0
          {
            assert views[1..][i] == views[i + 1] && addresses[1..][i] == addresses[i + 1];
          }
        }
        AddIpsOnFlushedViews(s.net, views[1..], gateway, name, addresses[1..], refused, spawnOk);
        NoDeletesThen(n.log, s.net.log, r.net.log);
      }
    }
  }

  /** set_configuration after the flush: when each add_ip sees the flushed
      interface, no address is deleted, since the flush already removed
      every address the interface had. */
  lemma SetConfigurationDeletesNothing(n: Net, snapshot: seq<EthernetInterface>, views: seq<seq<EthernetInterface>>,
                                       gateway: string, iface: EthernetInterface,
                                       refused: map<NetAction, Error>, spawnOk: bool)
    requires FlushedViews(views, gateway, iface.name, iface.addresses)
    ensures NoDeletes(SetConfiguration(n, snapshot, views, gateway, iface, refused, spawnOk).net.log[|n.log|..])
  {
    var r := SetConfiguration(n, snapshot, views, gateway, iface, refused, spawnOk);
    if FindInterface(snapshot, iface.name).None? || FlushAddresses(iface.name) in refused {
      assert r.net.log[|n.log|..] == [];
    } else {
      var m := Net(n.serverRunning, n.log + [FlushAddresses(iface.name)]);
      var s := AddIps(m, views, gateway, iface.name, iface.addresses, refused, spawnOk);
      AddIpsOnFlushedViews(m, views, gateway, iface.name, iface.addresses, refused, spawnOk);
      assert NoDeletes(m.log[|n.log|..]) by {
        assert m.log[|n.log|..] == [FlushAddresses(iface.name)];
      }
      NoDeletesThen(n.log, m.log, s.net.log);
      if r != s {
        assert r.net.log == s.net.log + [StopServer];
        NoDeletesThen(n.log, s.net.log, r.net.log);
      }
    }
  }

  /** Reconfiguring eth0 with the server address it already holds, while
      the server runs: the add reads the flushed interface and finds no
      equal address, so only the flush and the add are requested, and the
      server keeps running. */
  lemma ReconfigureHeldServerAddress()
    ensures var held := EthernetInterface("eth0", [InterfaceAddress("192.168.2.2", Server)], None);
            var flushed := EthernetInterface("eth0", [], None);
      SetConfiguration(Net(true, []), [held], [[flushed]], "192.168.2.2", held, map[], true)
        == Step(Net(true, [FlushAddresses("eth0"), AddAddress("eth0", "192.168.2.2")]), Pass)
  {
  }

  class EthernetManager {
    const gateway: string
    var serverRunning: bool
    /** The kernel and DHCP server requests made, oldest first. */
    var log: seq<NetAction>
    /** The interface list the last get_interfaces call stored. */
    var result: seq<EthernetInterface>

    constructor(gateway: string, serverRunning: bool)
      ensures this.gateway == gateway && this.serverRunning == serverRunning && log == [] && result == []
    {
      this.gateway := gateway;
      this.serverRunning := serverRunning;
      log := [];
      result := [];
    }

    function State(): Net
      reads this
    {
      Net(serverRunning, log)
    }

    method RemoveIpAddress(snapshot: seq<EthernetInterface>, name: string, ip: string,
                           refused: map<NetAction, Error>) returns (r: Outcome)
      modifies this
      ensures Step(State(), r) == RemoveIp(old(State()), snapshot, name, ip, refused)
      ensures result == snapshot
    {
      result := snapshot;
      var iface := FindInterface(snapshot, name);
      if iface.None? {
        return Fail(ValueError);
      }
      if ServerAddressPresent(iface.value) && serverRunning {
        serverRunning := false;
        log := log + [StopServer];
      }
      var request := DeleteAddress(name, ip);
      if request in refused {
        return Fail(ValueError);
      }
      log := log + [request];
      return Pass;
    }

    method AddIpAddress(snapshot: seq<EthernetInterface>, name: string, mode: AddressMode, ip: Option<string>,
                        refused: map<NetAction, Error>, spawnOk: bool) returns (r: Outcome)
      modifies this
      ensures Step(State(), r) == AddIp(old(State()), snapshot, gateway, name, mode, ip, refused, spawnOk)
      ensures result == snapshot
    {
      var parsed := ParsedIp(mode, ip, gateway);
      result := snapshot;
      var iface := FindInterface(snapshot, name);
      if iface.None? || MissingIp(parsed, mode) {
        return Fail(ValueError);
      }
      var removed := RemoveEqualAddresses(snapshot, name, parsed.value, iface.value.addresses, refused);
      if removed.Fail? {
        return removed;
      }
      r := RequestsAfterRemoval(name, mode, parsed.value, refused, spawnOk);
    }

    /** add_ip's loop: every listed address equal to `ip` is removed, and
        the first refused removal ends it. */
    method RemoveEqualAddresses(snapshot: seq<EthernetInterface>, name: string, ip: string,
                                addresses: seq<InterfaceAddress>, refused: map<NetAction, Error>)
      returns (r: Outcome)
      requires result == snapshot
      modifies this
      ensures Step(State(), r) == RemoveMatching(old(State()), snapshot, name, ip, addresses, refused)
      ensures result == snapshot
    {
      var i := 0;
      while i < |addresses|
        invariant 0 <= i <= |addresses| && result == snapshot
        invariant RemoveMatching(old(State()), snapshot, name, ip, addresses, refused)
               == RemoveMatching(State(), snapshot, name, ip, addresses[i..], refused)
      {
        assert addresses[i..][0] == addresses[i] && addresses[i..][1..] == addresses[i + 1..];
        RemoveMatchingStep(State(), snapshot, name, ip, addresses[i..], refused);
        if addresses[i].ip == ip {
          var removed := RemoveIpAddress(snapshot, name, ip, refused);
          if removed.Fail? {
            return removed;
          }
        }
        i := i + 1;
      }
      assert addresses[i..] == [];
      return Pass;
    }

    /** The requests of add_ip after the removal loop. */
    method RequestsAfterRemoval(name: string, mode: AddressMode, ip: string,
                                refused: map<NetAction, Error>, spawnOk: bool) returns (r: Outcome)
      modifies this
      ensures Step(State(), r) == AddAfterRemoval(old(State()), name, mode, ip, refused, spawnOk)
      ensures result == old(result)
    {
      match mode {
        case Client =>
          if LinkDown(name) in refused {
            return Fail(ValueError);
          }
          log := log + [LinkDown(name)];
          if LinkUp(name) in refused {
            return Fail(ValueError);
          }
          log := log + [LinkUp(name)];
        case Server =>
          if AddAddress(name, ip) in refused {
            return Fail(ValueError);
          }
          log := log + [AddAddress(name, ip)];
          if !serverRunning {
            log := log + [StartServer];
            serverRunning := spawnOk;
          }
        case Unmanaged =>
          if AddAddress(name, ip) in refused {
            return Fail(ValueError);
          }
          log := log + [AddAddress(name, ip)];
      }
      return Pass;
    }

    method SetConfigurationOf(snapshot: seq<EthernetInterface>, views: seq<seq<EthernetInterface>>,
                              iface: EthernetInterface, refused: map<NetAction, Error>, spawnOk: bool)
      returns (r: Outcome)
      requires |views| == |iface.addresses|
      modifies this
      ensures Step(State(), r) == SetConfiguration(old(State()), snapshot, views, gateway, iface, refused, spawnOk)
      ensures result in [snapshot] + views
      ensures r.Pass? ==> result == ([snapshot] + views)[|views|]
    {
      result := snapshot;
      if FindInterface(snapshot, iface.name).None? {
        return Fail(ValueError);
      }
      if FlushAddresses(iface.name) in refused {
        return Fail(refused[FlushAddresses(iface.name)]);
      }
      SetConfigurationSteps(State(), snapshot, views, gateway, iface, refused, spawnOk);
      log := log + [FlushAddresses(iface.name)];
      ghost var flushed := State();
      var i := 0;
      while i < |iface.addresses|
        invariant 0 <= i <= |iface.addresses| && result == ([snapshot] + views)[i]
        invariant AddIps(flushed, views, gateway, iface.name, iface.addresses, refused, spawnOk)
               == AddIps(State(), views[i..], gateway, iface.name, iface.addresses[i..], refused, spawnOk)
      {
        assert iface.addresses[i..][0] == iface.addresses[i] && iface.addresses[i..][1..] == iface.addresses[i + 1..];
        assert views[i..][0] == views[i] && views[i..][1..] == views[i + 1..];
        AddIpsStep(State(), views[i..], gateway, iface.name, iface.addresses[i..], refused, spawnOk);
        var added := AddIpAddress(views[i], iface.name, iface.addresses[i].mode, Some(iface.addresses[i].ip),
                                  refused, spawnOk);
        if added.Fail? {
          return added;
        }
        i := i + 1;
      }
      assert iface.addresses[i..] == [];
      if !ServerAddressPresent(iface) && serverRunning {
        serverRunning := false;
        log := log + [StopServer];
      }
      return Pass;
    }

    /** The inner loop of get_interfaces: the interface's IPv4 addresses,
        each with the text reported for it and its mode. */
    method ClassifyAddresses(addresses: seq<OsAddress>, obs: Observation) returns (valid: seq<InterfaceAddress>)
      ensures valid == ClassifiedAddresses(addresses, obs, serverRunning, gateway)
    {
      valid := [];
      var j := 0;
      while j < |addresses|
        invariant 0 <= j <= |addresses|
        invariant valid + ClassifiedAddresses(addresses[j..], obs, serverRunning, gateway)
               == ClassifiedAddresses(addresses, obs, serverRunning, gateway)
      {
        assert addresses[j..][0] == addresses[j] && addresses[j..][1..] == addresses[j + 1..];
        ClassifiedAddressesStep(addresses[j..], obs, serverRunning, gateway);
        if addresses[j].family == Inet {
          var validIp := WeakIsIpAddress(addresses[j].address);
          var ip := ReportedIp(addresses[j].address);
          var mode := ModeOf(ip, validIp, obs.isStatic(ip), serverRunning, gateway);
          valid := valid + [InterfaceAddress(ip, mode)];
        }
        j := j + 1;
      }
      assert addresses[j..] == [];
    }

    /** get_interfaces, with each interface's own link statistics: skip
        virtual interfaces, classify the IPv4 addresses, keep the valid
        names, and store the list in `result`. */
    method GetInterfaces(obs: Observation) returns (r: seq<EthernetInterface>)
      modifies this
      ensures r == Interfaces(obs.interfaces, obs, serverRunning, gateway) && result == r
      ensures serverRunning == old(serverRunning) && log == old(log)
    {
      var found: seq<EthernetInterface> := [];
      var i := 0;
      while i < |obs.interfaces|
        invariant 0 <= i <= |obs.interfaces|
        invariant serverRunning == old(serverRunning) && log == old(log)
        invariant found + Interfaces(obs.interfaces[i..], obs, serverRunning, gateway)
               == Interfaces(obs.interfaces, obs, serverRunning, gateway)
      {
        assert obs.interfaces[i..][0] == obs.interfaces[i] && obs.interfaces[i..][1..] == obs.interfaces[i + 1..];
        InterfacesStep(obs.interfaces[i..], obs, serverRunning, gateway);
        var (name, addresses) := obs.interfaces[i];
        if !IsVeth(name) {
          var valid := ClassifyAddresses(addresses, obs);
          if IsValidInterfaceName(name, obs.wifiNames) {
            found := found + [EthernetInterface(name, valid, Some(obs.infoOf(name)))];
          }
        }
        i := i + 1;
      }
      assert obs.interfaces[i..] == [];
      result := found;
      return found;
    }
  }
}
