/**
 * The locally computed part of the `VpnConnection` construct: the host
 * addresses of the tunnel's inside CIDR (`VpnConnection._get_hosts`) and the
 * two-name unpacking in the constructor that assigns the lower host to the
 * virtual private gateway and the higher one to the customer gateway.
 */
module VpnConnection {
  import opened Wrappers
  import opened Ipv4
  import opened Strings

  /** `_get_hosts(cidr)`: the host addresses of the block, each as `str(host)`. */
  function GetHosts(cidr: string): (r: Result<seq<string>, NetworkError>)
    ensures ParseNetwork(cidr).Err? ==> r == Err(ParseNetwork(cidr).error)
    ensures ParseNetwork(cidr).Ok? ==> r.Ok? && |r.value| == |Hosts(ParseNetwork(cidr).value)|
    ensures ParseNetwork(cidr).Ok? ==> forall i :: 0 <= i < |r.value| ==>
      r.value[i] == FormatAddress(Hosts(ParseNetwork(cidr).value)[i]) &&
      ParseAddress(r.value[i]) == Some(Hosts(ParseNetwork(cidr).value)[i])
  {
    match ParseNetwork(cidr)
    case Err(e) => Err(e)
    case Ok(n) =>
      var hosts := Hosts(n);
      var texts := seq(|hosts|, i requires 0 <= i < |hosts| => FormatAddress(hosts[i]));
      assert forall i :: 0 <= i < |texts| ==> ParseAddress(texts[i]) == Some(hosts[i]) by {
        forall i | 0 <= i < |texts|
          ensures ParseAddress(texts[i]) == Some(hosts[i])
        {
          AddressRoundTrip(hosts[i]);
        }
      }
      Ok(texts)
  }

  /** The two link-local addresses of tunnel 1, as the constructor names them. */
  datatype TunnelLinkLocalIps = TunnelLinkLocalIps(vpgwTun1LinkLocalIp: string, cgwTun1LinkLocalIp: string)

  /** Why computing the two addresses fails; each case raises `ValueError`. */
  datatype ConstructionError =
    | InvalidInnerCidr(cause: NetworkError)   // raised by `_get_hosts`
    | UnpackMismatch(hostCount: nat)          // the host list does not have exactly two entries

  /** `vpgw, cgw = self._get_hosts(self.tun1_inner_cidr)` */
  function TunnelIps(innerCidr: string): Result<TunnelLinkLocalIps, ConstructionError> {
    match GetHosts(innerCidr)
    case Err(e) => Err(InvalidInnerCidr(e))
    case Ok(hosts) =>
      if |hosts| == 2 then Ok(TunnelLinkLocalIps(hosts[0], hosts[1]))
      else Err(UnpackMismatch(|hosts|))
  }

  /**
   * The two-name unpacking succeeds exactly for /30 and /31 inside blocks; any other
   * prefix is an unpacking error carrying the host count, and text that is
   * not an IPv4 network is reported as such.
   */
  lemma TunnelIpsCases(innerCidr: string)
    ensures ParseNetwork(innerCidr).Err? ==>
      TunnelIps(innerCidr) == Err(InvalidInnerCidr(ParseNetwork(innerCidr).error))
    ensures ParseNetwork(innerCidr).Ok? ==>
      var n := ParseNetwork(innerCidr).value;
      var r := TunnelIps(innerCidr);
      (r.Ok? <==> n.prefix == 30 || n.prefix == 31) &&
      (r.Err? ==> r.error == UnpackMismatch(|Hosts(n)|))
  {
    if ParseNetwork(innerCidr).Ok? {
      TwoHosts(ParseNetwork(innerCidr).value);
    }
  }

  /** A block has exactly two hosts iff it is a /30 or a /31. */
  lemma TwoHosts(n: Network)
    requires n.Valid()
    ensures |Hosts(n)| == 2 <==> n.prefix == 30 || n.prefix == 31
  {
    HostsCount(n);
    if n.prefix <= 29 {
      assert BlockSize(n.prefix) >= 8 by {
        Pow2Monotone(3, MaxPrefixLen - n.prefix);
      }
    }
  }

  /**
   * For a /30 inside block at base b the virtual private gateway gets b+1 and
   * the customer gateway b+2, each in dotted-quad form.
   */
  lemma TunnelIpsOfSlash30(cidr: string)
    requires ParseNetwork(cidr).Ok? && ParseNetwork(cidr).value.prefix == 30
    ensures var b := ParseNetwork(cidr).value.base;
      b + 2 < AddressCount &&
      TunnelIps(cidr) == Ok(TunnelLinkLocalIps(FormatAddress(b + 1), FormatAddress(b + 2)))
  {
    var n := ParseNetwork(cidr).value;
    var hosts := Hosts(n);
    Slash30Hosts(n);
    var texts := GetHosts(cidr).value;
    assert |texts| == 2 && texts[0] == FormatAddress(hosts[0]) && texts[1] == FormatAddress(hosts[1]);
    assert hosts[0] == n.base + 1 && hosts[1] == n.base + 2;
    assert TunnelIps(cidr) == Ok(TunnelLinkLocalIps(texts[0], texts[1]));
  }

  /**
   * For a /31 inside block at base b the virtual private gateway gets b itself
   * and the customer gateway b+1.
   */
  lemma TunnelIpsOfSlash31(cidr: string)
    requires ParseNetwork(cidr).Ok? && ParseNetwork(cidr).value.prefix == 31
    ensures var b := ParseNetwork(cidr).value.base;
      b + 1 < AddressCount &&
      TunnelIps(cidr) == Ok(TunnelLinkLocalIps(FormatAddress(b), FormatAddress(b + 1)))
  {
    var n := ParseNetwork(cidr).value;
    var hosts := Hosts(n);
    Slash31Hosts(n);
    var texts := GetHosts(cidr).value;
    assert |texts| == 2 && texts[0] == FormatAddress(hosts[0]) && texts[1] == FormatAddress(hosts[1]);
    assert hosts[0] == n.base && hosts[1] == n.base + 1;
    assert TunnelIps(cidr) == Ok(TunnelLinkLocalIps(texts[0], texts[1]));
  }

  /**
   * Whenever the two-name unpacking succeeds, the two addresses are distinct members
   * of the inside block, the virtual private gateway's being the lower one;
   * for a /30 block neither is the network or the broadcast address.
   */
  lemma TunnelIpsInsideBlock(innerCidr: string)
    requires TunnelIps(innerCidr).Ok?
    ensures ParseNetwork(innerCidr).Ok?
    ensures var n := ParseNetwork(innerCidr).value;
      var ips := TunnelIps(innerCidr).value;
      var vpgw, cgw := ParseAddress(ips.vpgwTun1LinkLocalIp), ParseAddress(ips.cgwTun1LinkLocalIp);
      vpgw.Some? && cgw.Some? &&
      n.Contains(vpgw.value) && n.Contains(cgw.value) && vpgw.value < cgw.value &&
      ips.vpgwTun1LinkLocalIp != ips.cgwTun1LinkLocalIp &&
      (n.prefix == 30 ==> vpgw.value != n.base && cgw.value != n.Broadcast())
  {
    TunnelIpsCases(innerCidr);
    var n := ParseNetwork(innerCidr).value;
    var lo := if n.prefix == 30 then n.base + 1 else n.base;
    if n.prefix == 30 {
      TunnelIpsOfSlash30(innerCidr);
      Slash30Hosts(n);
    } else {
      TunnelIpsOfSlash31(innerCidr);
      Slash31Hosts(n);
    }
    AddressRoundTrip(lo);
    AddressRoundTrip(lo + 1);
  }

  /** The decimal forms of the numbers in the example. */
  lemma ExampleDecimals()
    ensures Decimal(169) == "169" && Decimal(254) == "254" && Decimal(88) == "88"
    ensures Decimal(80) == "80" && Decimal(81) == "81" && Decimal(82) == "82" && Decimal(30) == "30"
  {
    assert Decimal(16) == Decimal(1) + "6";
    assert Decimal(169) == Decimal(16) + "9";
    assert Decimal(25) == Decimal(2) + "5";
    assert Decimal(254) == Decimal(25) + "4";
    assert Decimal(88) == Decimal(8) + "8";
    assert Decimal(80) == Decimal(8) + "0";
    assert Decimal(81) == Decimal(8) + "1";
    assert Decimal(82) == Decimal(8) + "2";
    assert Decimal(30) == Decimal(3) + "0";
  }

  /** The example addresses 169.254.88.80, .81 and .82 in dotted-quad form. */
  lemma ExampleAddresses(base: nat)
    requires base == ((169 * 256 + 254) * 256 + 88) * 256 + 80
    ensures base + 2 < AddressCount
    ensures FormatAddress(base) == "169.254.88.80"
    ensures FormatAddress(base + 1) == "169.254.88.81"
    ensures FormatAddress(base + 2) == "169.254.88.82"
    ensures FormatAddress(base) + "/" + Decimal(30) == "169.254.88.80/30"
  {
    ExampleDecimals();
    FormatOctets(169, 254, 88, 80);
    FormatOctets(169, 254, 88, 81);
    FormatOctets(169, 254, 88, 82);
    Join4("169", "254", "88", "80", '.');
    Join4("169", "254", "88", "81", '.');
    Join4("169", "254", "88", "82", '.');
    ExampleTexts();
  }

  lemma ExampleTexts()
    ensures "169" + ['.'] + "254" + ['.'] + "88" + ['.'] + "80" == "169.254.88.80"
    ensures "169" + ['.'] + "254" + ['.'] + "88" + ['.'] + "81" == "169.254.88.81"
    ensures "169" + ['.'] + "254" + ['.'] + "88" + ['.'] + "82" == "169.254.88.82"
    ensures "169.254.88.80" + "/" + "30" == "169.254.88.80/30"
  {
  }

  /**
   * The example of the deployment's configuration: the inside CIDR
   * 169.254.88.80/30 gives the VPN gateway 169.254.88.81 and the customer
   * gateway 169.254.88.82.
   */
  lemma ExampleInsideCidr()
    ensures TunnelIps("169.254.88.80/30") == Ok(TunnelLinkLocalIps("169.254.88.81", "169.254.88.82"))
  {
    var base := ((169 * 256 + 254) * 256 + 88) * 256 + 80;
    assert base == 4 * 713004564;
    assert base < AddressCount && base % BlockSize(30) == 0 by {
      assert BlockSize(30) == 4;
    }
    var cidr := FormatAddress(base) + "/" + Decimal(30);
    assert ParseNetwork(cidr) == Ok(Network(base, 30)) by {
      NetworkTextRoundTrip(base, 30);
    }
    TunnelIpsOfSlash30(cidr);
    ExampleAddresses(base);
  }
}
