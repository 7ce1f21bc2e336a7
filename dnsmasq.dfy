/** The DHCP server wrapper (commonwealth/utils/DHCPServerManager.py): the
    set of interfaces dnsmasq serves, the gateway address it announces, and
    the dnsmasq child process, restarted after every change.

    Looking the binary up on PATH, running it with --test and spawning it
    are inputs. The command line's interface list follows the set's
    iteration order, an input too. */
module DHCPServer {
  import opened Base
  import opened Processes

  type Octet = x: nat | x < 256

  /** An IPv4 address, as ipaddress.IPv4Address holds it. */
  datatype IPv4 = IPv4(a: Octet, b: Octet, c: Octet, d: Octet)

  const DefaultGateway := IPv4(192, 168, 2, 2)

  /** str() of an address: dotted decimal without leading zeros. */
  function IPv4String(ip: IPv4): string
  {
    Join([NatToString(ip.a), NatToString(ip.b), NatToString(ip.c), NatToString(ip.d)], '.')
  }

  lemma {:induction false} DigitsHaveNoSeparator(n: nat, sep: char)
    requires !IsDigit(sep)
    ensures sep !in NatToString(n) && |NatToString(n)| > 0
  {
    NatToStringDigits(n);
  }

  /** The four decimal octets of an address, which str() joins with dots. */
  function OctetStrings(ip: IPv4): (r: seq<string>)
    ensures |r| == 4 && NoSep(r, '.') && NoSep(r, ',')
    ensures forall k :: 0 <= k < 4 ==> AllDigits(r[k])
  {
    DigitsHaveNoSeparator(ip.a, '.');
    DigitsHaveNoSeparator(ip.b, '.');
    DigitsHaveNoSeparator(ip.c, '.');
    DigitsHaveNoSeparator(ip.d, '.');
    DigitsHaveNoSeparator(ip.a, ',');
    DigitsHaveNoSeparator(ip.b, ',');
    DigitsHaveNoSeparator(ip.c, ',');
    DigitsHaveNoSeparator(ip.d, ',');
    NatToStringDigits(ip.a);
    NatToStringDigits(ip.b);
    NatToStringDigits(ip.c);
    NatToStringDigits(ip.d);
    [NatToString(ip.a), NatToString(ip.b), NatToString(ip.c), NatToString(ip.d)]
  }

  /** Parsing the dotted text back gives the address: str() is injective. */
  lemma IPv4StringRoundTrip(ip: IPv4)
    ensures var parts := Split(IPv4String(ip), '.');
      |parts| == 4 && (forall k :: 0 <= k < 4 ==> AllDigits(parts[k]))
      && ParseDigits(parts[0]) == ip.a && ParseDigits(parts[1]) == ip.b
      && ParseDigits(parts[2]) == ip.c && ParseDigits(parts[3]) == ip.d
  {
    var parts := OctetStrings(ip);
    SplitJoin(parts, '.');
    ParseNatToString(ip.a);
    ParseNatToString(ip.b);
    ParseNatToString(ip.c);
    ParseNatToString(ip.d);
  }

  lemma JoinThree(x: string, y: string, z: string, sep: char)
    ensures Join([x, y, z], sep) == x + [sep] + y + [sep] + z
  {
    assert [x, y, z][1..] == [y, z];
    assert [y, z][1..] == [z];
    assert Join([y, z], sep) == y + [sep] + z;
    assert Join([x, y, z], sep) == x + [sep] + Join([y, z], sep);
  }

  lemma JoinFour(w: string, x: string, y: string, z: string, sep: char)
    ensures Join([w, x, y, z], sep) == w + [sep] + x + [sep] + y + [sep] + z
  {
    assert [w, x, y, z][1..] == [x, y, z];
    JoinThree(x, y, z, sep);
    assert Join([w, x, y, z], sep) == w + [sep] + Join([x, y, z], sep);
  }

  /** _ipv4_network_prefix: the first three fields of the dotted text,
      joined again with dots. */
  function NetworkPrefix(gateway: IPv4): (r: string)
    ensures r == Join(OctetStrings(gateway)[..3], '.')
    ensures r + "." + NatToString(gateway.d) == IPv4String(gateway)
  {
    var parts := OctetStrings(gateway);
    SplitJoin(parts, '.');
    var p := Split(IPv4String(gateway), '.')[..3];
    assert p == parts[..3] == [parts[0], parts[1], parts[2]];
    JoinThree(parts[0], parts[1], parts[2], '.');
    JoinFour(parts[0], parts[1], parts[2], parts[3], '.');
    Join(p, '.')
  }

  /** Two gateways give the same prefix exactly when they share the first
      three octets. */
  lemma NetworkPrefixSameSubnet(g: IPv4, h: IPv4)
    ensures NetworkPrefix(g) == NetworkPrefix(h) <==> g.a == h.a && g.b == h.b && g.c == h.c
  {
    var pg := OctetStrings(g)[..3];
    var ph := OctetStrings(h)[..3];
    assert pg == [NatToString(g.a), NatToString(g.b), NatToString(g.c)];
    assert ph == [NatToString(h.a), NatToString(h.b), NatToString(h.c)];
    if NetworkPrefix(g) == NetworkPrefix(h) {
      SplitJoin(pg, '.');
      SplitJoin(ph, '.');
      assert pg == ph;
      assert pg[0] == ph[0] && pg[1] == ph[1] && pg[2] == ph[2];
      NatToStringInjective(g.a, h.a);
      NatToStringInjective(g.b, h.b);
      NatToStringInjective(g.c, h.c);
    }
  }

  /** The --dhcp-range value: first and last leased address, netmask and
      lease time. */
  function DhcpRange(gateway: IPv4): string
  {
    var prefix := NetworkPrefix(gateway);
    Join([prefix + ".100", prefix + ".200", "255.255.255.0", "24h"], ',')
  }

  /** command_list: binary, the interface list, the lease range on the
      gateway's /24, the DHCP Router Option (section 3.5 of RFC 2132) set
      to the gateway, and the configuration file. */
  function CommandList(binary: string, interfaceOrder: seq<string>, gateway: IPv4, configPath: string): (r: seq<string>)
    ensures |r| == 5 && r[0] == binary
  {
    [ binary,
      "--interface=" + Join(interfaceOrder, ','),
      "--dhcp-range=" + DhcpRange(gateway),
      "--dhcp-option=option:router," + IPv4String(gateway),
      "--conf-file=" + configPath ]
  }

  /** The network prefix holds no comma, so it survives the comma split. */
  lemma NetworkPrefixNoComma(gateway: IPv4)
    ensures ',' !in NetworkPrefix(gateway)
    ensures NetworkPrefix(gateway) == NatToString(gateway.a) + "." + NatToString(gateway.b) + "." + NatToString(gateway.c)
  {
    var parts := OctetStrings(gateway);
    assert parts[..3] == [parts[0], parts[1], parts[2]];
    JoinThree(parts[0], parts[1], parts[2], '.');
    assert ',' !in parts[0] && ',' !in parts[1] && ',' !in parts[2];
  }

  /** The --dhcp-range value splits back into its four fields. */
  lemma DhcpRangeRoundTrip(gateway: IPv4)
    ensures Split(DhcpRange(gateway), ',') ==
      [NetworkPrefix(gateway) + ".100", NetworkPrefix(gateway) + ".200", "255.255.255.0", "24h"]
  {
    var prefix := NetworkPrefix(gateway);
    NetworkPrefixNoComma(gateway);
    var range := [prefix + ".100", prefix + ".200", "255.255.255.0", "24h"];
    assert NoSep(range, ',');
    SplitJoin(range, ',');
  }

  /** The last leased address is the gateway's first three octets and 200. */
  lemma RangeEndOnGatewayNetwork(gateway: IPv4)
    ensures NetworkPrefix(gateway) + ".200" == Join([NatToString(gateway.a), NatToString(gateway.b),
                                                     NatToString(gateway.c), "200"], '.')
  {
    NetworkPrefixNoComma(gateway);
    JoinFour(NatToString(gateway.a), NatToString(gateway.b), NatToString(gateway.c), "200", '.');
  }

  /** What dnsmasq reads back from the command line: the interfaces in the
      order given, leases from .100 to .200 of the gateway's network with a
      /24 mask for 24 hours, and the gateway itself as the router. */
  lemma CommandListRoundTrip(binary: string, interfaceOrder: seq<string>, gateway: IPv4, configPath: string)
    requires |interfaceOrder| > 0 && NoSep(interfaceOrder, ',')
    ensures var cmd := CommandList(binary, interfaceOrder, gateway, configPath);
      && Split(cmd[1][|"--interface="|..], ',') == interfaceOrder
      && Split(cmd[2][|"--dhcp-range="|..], ',') ==
           [NetworkPrefix(gateway) + ".100", NetworkPrefix(gateway) + ".200", "255.255.255.0", "24h"]
      && cmd[3][|"--dhcp-option=option:router,"|..] == IPv4String(gateway)
      && NetworkPrefix(gateway) + ".200" == Join([NatToString(gateway.a), NatToString(gateway.b),
                                                  NatToString(gateway.c), "200"], '.')
  {
    var cmd := CommandList(binary, interfaceOrder, gateway, configPath);
    assert cmd[1][|"--interface="|..] == Join(interfaceOrder, ',');
    SplitJoin(interfaceOrder, ',');
    assert cmd[2][|"--dhcp-range="|..] == DhcpRange(gateway);
    DhcpRangeRoundTrip(gateway);
    RangeEndOnGatewayNetwork(gateway);
  }

  class Dnsmasq {
    const binary: string
    const configPath: string
    var subprocess: Option<Process>
    var interfaces: set<string>
    var gateway: IPv4
    /** The command lines passed to Popen, oldest first. */
    var launches: seq<seq<string>>

    constructor(binary: string, configPath: string)
      ensures this.binary == binary && this.configPath == configPath
      ensures subprocess.None? && interfaces == {} && gateway == DefaultGateway && launches == []
    {
      this.binary := binary;
      this.configPath := configPath;
      subprocess := None;
      interfaces := {};
      gateway := DefaultGateway;
      launches := [];
    }

    predicate IsRunning()
      reads this
    {
      Running(subprocess)
    }

    /** start: Popen with the current command list; `spawned` is None when
        Popen raised, which is only logged. */
    method Start(order: seq<string>, spawned: Option<Option<int>>)
      requires ListsExactly(order, interfaces)
      modifies this
      ensures launches == old(launches) + [CommandList(binary, order, gateway, configPath)]
      ensures spawned.Some? ==> subprocess == Some(Process(spawned.value, false))
      ensures spawned.None? ==> subprocess == old(subprocess)
      ensures interfaces == old(interfaces) && gateway == old(gateway)
    {
      launches := launches + [CommandList(binary, order, gateway, configPath)];
      if spawned.Some? {
        subprocess := Some(Process(spawned.value, false));
      }
    }

    /** stop: kill only a running server. */
    method Stop()
      modifies this
      ensures old(IsRunning()) ==> subprocess == Killed(old(subprocess))
      ensures !old(IsRunning()) ==> subprocess == old(subprocess)
      ensures interfaces == old(interfaces) && gateway == old(gateway) && launches == old(launches)
    {
      if IsRunning() {
        subprocess := Killed(subprocess);
      }
    }

    method Restart(order: seq<string>, spawned: Option<Option<int>>)
      requires ListsExactly(order, interfaces)
      modifies this
      ensures launches == old(launches) + [CommandList(binary, order, gateway, configPath)]
      ensures spawned.Some? ==> subprocess == Some(Process(spawned.value, false))
      ensures spawned.None? && old(IsRunning()) ==> subprocess == Killed(old(subprocess))
      ensures spawned.None? && !old(IsRunning()) ==> subprocess == old(subprocess)
      ensures interfaces == old(interfaces) && gateway == old(gateway)
    {
      Stop();
      Start(order, spawned);
    }

    /** add_interface: a set insert, so adding a served interface again
        leaves the set as it was; the server is restarted either way. */
    method AddInterface(name: string, order: seq<string>, spawned: Option<Option<int>>)
      requires ListsExactly(order, interfaces + {name})
      modifies this
      ensures interfaces == old(interfaces) + {name}
      ensures name in old(interfaces) ==> interfaces == old(interfaces)
      ensures launches == old(launches) + [CommandList(binary, order, gateway, configPath)]
      ensures spawned.Some? ==> subprocess == Some(Process(spawned.value, false))
      ensures gateway == old(gateway)
    {
      interfaces := interfaces + {name};
      Restart(order, spawned);
    }

    /** remove_interface: ValueError for an interface not served, with
        nothing changed and no restart; otherwise remove it and restart. */
    method RemoveInterface(name: string, order: seq<string>, spawned: Option<Option<int>>) returns (r: Outcome)
      requires name in interfaces ==> ListsExactly(order, interfaces - {name})
      modifies this
      ensures name !in old(interfaces) ==> (r == Fail(ValueError) && interfaces == old(interfaces)
                                           && subprocess == old(subprocess) && launches == old(launches))
      ensures name in old(interfaces) ==> (r == Pass && interfaces == old(interfaces) - {name}
                                          && launches == old(launches) + [CommandList(binary, order, gateway, configPath)])
      ensures name in old(interfaces) && spawned.Some? ==> subprocess == Some(Process(spawned.value, false))
      ensures gateway == old(gateway)
    {
      if name !in interfaces {
        return Fail(ValueError);
      }
      interfaces := interfaces - {name};
      Restart(order, spawned);
      return Pass;
    }

    /** set_gateway_ipv4: store the address, then restart with it. */
    method SetGateway(ip: IPv4, order: seq<string>, spawned: Option<Option<int>>)
      requires ListsExactly(order, interfaces)
      modifies this
      ensures gateway == ip && interfaces == old(interfaces)
      ensures launches == old(launches) + [CommandList(binary, order, ip, configPath)]
      ensures spawned.Some? ==> subprocess == Some(Process(spawned.value, false))
    {
      gateway := ip;
      Restart(order, spawned);
    }
  }

  /** Dnsmasq(): ValueError when no dnsmasq binary is on PATH; the two
      self-tests (the binary with --test, then the command list with
      --test) are assertions. */
  method NewDnsmasq(binaryPath: Option<string>, binaryWorks: bool, configValid: bool, configPath: string)
    returns (r: Result<Dnsmasq>)
    ensures binaryPath.None? ==> r == Err(ValueError)
    ensures binaryPath.Some? && !binaryWorks ==> r == Err(AssertionError)
    ensures binaryPath.Some? && binaryWorks && !configValid ==> r == Err(AssertionError)
    ensures r.Ok? <==> binaryPath.Some? && binaryWorks && configValid
    ensures r.Ok? ==> (r.value.binary == binaryPath.value && r.value.configPath == configPath
                       && r.value.interfaces == {} && r.value.gateway == DefaultGateway
                       && !r.value.IsRunning())
  {
    if binaryPath.None? {
      return Err(ValueError);
    }
    if !binaryWorks {
      return Err(AssertionError);
    }
    if !configValid {
      return Err(AssertionError);
    }
    var d := new Dnsmasq(binaryPath.value, configPath);
    return Ok(d);
  }
}
