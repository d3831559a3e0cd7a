/**
 * How the data-centre stack wires the two computed pieces together: the
 * link-local addresses derived from the tunnel's inside CIDR are passed to
 * the customer gateway's boot script, the customer gateway's as
 * `cgw_tun1_link_local_inner_ip` and the VPN gateway's as
 * `vpgw_tun1_link_local_inner_ip`.
 */
module Deployment {
  import opened Wrappers
  import opened Ipv4
  import VpnConnection
  import CustomerGateway

  /** The boot-script arguments built from the derived tunnel addresses and the other inputs. */
  function GatewayArgs(
    ips: VpnConnection.TunnelLinkLocalIps, vpgwTun1PublicIp: string, tun1PreSharedKey: string,
    vpcCidr: string, dcCidr: string): CustomerGateway.UserDataArgs
  {
    CustomerGateway.UserDataArgs(
      vpgwTun1PublicIp, tun1PreSharedKey,
      ips.cgwTun1LinkLocalIp, ips.vpgwTun1LinkLocalIp,
      vpcCidr, dcCidr)
  }

  /**
   * For a /30 inside block at base b, the rendered script gives the customer
   * gateway's end of `Tunnel1` the address b+2 and the remote end b+1: the
   * two hosts of the block, each under the /30 the template writes.
   */
  lemma TunnelEndsOfInsideBlock(
    innerCidr: string, vpgwTun1PublicIp: string, tun1PreSharedKey: string, vpcCidr: string, dcCidr: string)
    requires ParseNetwork(innerCidr).Ok? && ParseNetwork(innerCidr).value.prefix == 30
    ensures VpnConnection.TunnelIps(innerCidr).Ok?
    ensures var b := ParseNetwork(innerCidr).value.base;
      var a := GatewayArgs(VpnConnection.TunnelIps(innerCidr).value, vpgwTun1PublicIp, tun1PreSharedKey, vpcCidr, dcCidr);
      b + 2 < AddressCount && |CustomerGateway.UserDataLines| == 77 &&
      CustomerGateway.ScriptLine(a, 23) ==
        "sudo ip addr add " + FormatAddress(b + 2) + "/30 remote " + FormatAddress(b + 1) + "/30 dev Tunnel1"
  {
    VpnConnection.TunnelIpsOfSlash30(innerCidr);
    var a := GatewayArgs(VpnConnection.TunnelIps(innerCidr).value, vpgwTun1PublicIp, tun1PreSharedKey, vpcCidr, dcCidr);
    CustomerGateway.TunnelAddressLine(a);
  }
}
