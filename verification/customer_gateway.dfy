/**
 * The customer gateway's boot script: the `USER_DATA` template and its
 * rendering with `str.format` in the `CustomerGateway` constructor. The
 * template is kept line by line, each line a sequence of literal pieces and
 * parameter slots, grouped in the blocks the script is made of; the format
 * string is the text those pieces spell.
 */
module CustomerGateway {
  import opened Wrappers
  import StrFormat
  import opened Strings

  /** The five placeholders the template contains. */
  datatype Param =
    | Tun1PreSharedKey
    | CgwTun1LinkLocalInnerIp
    | VpgwTun1LinkLocalInnerIp
    | VpcCidr
    | DcCidr

  /** The placeholder's keyword name in the template. */
  function Name(p: Param): string {
    match p
    case Tun1PreSharedKey => "tun1_pre_shared_key"
    case CgwTun1LinkLocalInnerIp => "cgw_tun1_link_local_inner_ip"
    case VpgwTun1LinkLocalInnerIp => "vpgw_tun1_link_local_inner_ip"
    case VpcCidr => "vpc_cidr"
    case DcCidr => "dc_cidr"
  }

  /** A piece of one template line: literal text or a placeholder. */
  datatype Piece = Lit(text: string) | Slot(param: Param)

  /** Lines 7-12: The shebang and the package installation. */
  const Packages: seq<seq<Piece>> := [
    /*  7 */ [Lit("#!/usr/bin/bash")],
    /*  8 */ [Lit("sudo apt update")],
    /*  9 */ [Lit("sudo apt -y upgrade")],
    /* 10 */ [Lit("sudo apt install -y strongswan-starter")],
    /* 11 */ [Lit("sudo snap install aws-cli --classic")],
    /* 12 */ []
  ]

  /** Lines 13-20: The gateway's own region and addresses, read from the instance metadata service. */
  const InstanceMetadata: seq<seq<Piece>> := [
    /* 13 */ [Lit("# Fetch CGW private IP from IMDSv2")],
    /* 14 */ [Lit("TOKEN=$(curl -X PUT \"http://169.254.169.254/latest/api/token\" -H \"X-aws-ec2-metadata-token-ttl-seconds: 21600\")")],
    /* 15 */ [],
    /* 16 */ [Lit("AWS_DEFAULT_REGION=$(curl -H \"X-aws-ec2-metadata-token: $TOKEN\" -s http://169.254.169.254/latest/dynamic/instance-identity/document | jq -r '.region')")],
    /* 17 */ [Lit("CGW_TUN1_PRIVATE_IP=$(curl -H \"X-aws-ec2-metadata-token: $TOKEN\" -s http://169.254.169.254/latest/meta-data/local-ipv4)")],
    /* 18 */ [Lit("CGW_TUN1_PUBLIC_IP=$(curl -H \"X-aws-ec2-metadata-token: $TOKEN\" -s http://169.254.169.254/latest/meta-data/public-ipv4)")],
    /* 19 */ [],
    /* 20 */ []
  ]

  /** Lines 21-27: The VPN gateway's public tunnel addresses, read from SSM, and the charon route setting. */
  const GatewayEndpoints: seq<seq<Piece>> := [
    /* 21 */ [Lit("VPGW_TUN1_PUBLIC_IP=$(aws ssm get-parameter --name /vpn/vpgw/tunnel1/public_ip --query \"Parameter.Value\" --output text --region $AWS_DEFAULT_REGION)")],
    /* 22 */ [Lit("VPGW_TUN2_PUBLIC_IP=$(aws ssm get-parameter --name /vpn/vpgw/tunnel2/public_ip --query \"Parameter.Value\" --output text --region $AWS_DEFAULT_REGION)")],
    /* 23 */ [],
    /* 24 */ [],
    /* 25 */ [],
    /* 26 */ [Lit("sudo sed -i 's/# install_routes = yes/install_routes = no/' /etc/strongswan.d/charon.conf")],
    /* 27 */ []
  ]

  /** Lines 28-34: The pre-shared key entry, the VTI interface, its link-local addresses and the route to the VPC. */
  const TunnelInterface: seq<seq<Piece>> := [
    /* 28 */ [Lit("sudo echo \"$CGW_TUN1_PUBLIC_IP $VPGW_TUN1_PUBLIC_IP : PSK \""), Slot(Tun1PreSharedKey), Lit("\"\" >> /etc/ipsec.secrets")],
    /* 29 */ [Lit("sudo ip link add Tunnel1 type vti local $CGW_TUN1_PRIVATE_IP remote $VPGW_TUN1_PUBLIC_IP key 100")],
    /* 30 */ [Lit("sudo ip addr add "), Slot(CgwTun1LinkLocalInnerIp), Lit("/30 remote "), Slot(VpgwTun1LinkLocalInnerIp), Lit("/30 dev Tunnel1")],
    /* 31 */ [Lit("sudo ip link set Tunnel1 up mtu 1419")],
    /* 32 */ [Lit("sudo ip route add "), Slot(VpcCidr), Lit(" dev Tunnel1 metric 100")],
    /* 33 */ [],
    /* 34 */ []
  ]

  /** Lines 35-40: The start of the generated `/etc/ipsec.conf`: the `config setup` section. */
  const IpsecSetup: seq<seq<Piece>> := [
    /* 35 */ [Lit("cat << EOF > /etc/ipsec.conf")],
    /* 36 */ [Lit("config setup")],
    /* 37 */ [Lit("        charondebug=\"all\"")],
    /* 38 */ [Lit("        uniqueids=yes")],
    /* 39 */ [Lit("        strictcrlpolicy=no")],
    /* 40 */ []
  ]

  /** Lines 41-49: The `conn Tunnel1` section: its type, peers and subnets. */
  const IpsecConnection: seq<seq<Piece>> := [
    /* 41 */ [Lit("conn Tunnel1")],
    /* 42 */ [Lit("        type=tunnel")],
    /* 43 */ [Lit("        auto=start")],
    /* 44 */ [Lit("        keyexchange=ikev2")],
    /* 45 */ [Lit("        authby=psk")],
    /* 46 */ [Lit("        leftid=$CGW_TUN1_PRIVATE_IP")],
    /* 47 */ [Lit("        leftsubnet="), Slot(DcCidr)],
    /* 48 */ [Lit("        right=$VPGW_TUN1_PUBLIC_IP")],
    /* 49 */ [Lit("        rightsubnet="), Slot(VpcCidr)]
  ]

  /** Lines 50-63: The rest of `conn Tunnel1`: proposals, lifetimes and dead-peer detection. */
  const IpsecTimers: seq<seq<Piece>> := [
    /* 50 */ [Lit("        aggressive=no")],
    /* 51 */ [Lit("        ikelifetime=28800s")],
    /* 52 */ [Lit("        lifetime=3600s")],
    /* 53 */ [Lit("        margintime=270s")],
    /* 54 */ [Lit("        rekey=yes")],
    /* 55 */ [Lit("        rekeyfuzz=100%")],
    /* 56 */ [Lit("        fragmentation=yes")],
    /* 57 */ [Lit("        replay_window=1024")],
    /* 58 */ [Lit("        dpddelay=30s")],
    /* 59 */ [Lit("        dpdtimeout=120s")],
    /* 60 */ [Lit("        dpdaction=restart")],
    /* 61 */ [Lit("        ike=aes128-sha1-modp1024")],
    /* 62 */ [Lit("        esp=aes128-sha1")],
    /* 63 */ [Lit("        keyingtries=%forever")]
  ]

  /** Lines 64-67: The end of `conn Tunnel1`: the mark that ties the connection to the VTI key. */
  const IpsecMark: seq<seq<Piece>> := [
    /* 64 */ [],
    /* 65 */ [Lit("        ## Please note the following line assumes you only have two tunnels in your Strongswan configuration file. This \"mark\" value must be unique and may need to be changed based on other entries in your configuration file.")],
    /* 66 */ [Lit("        mark=100")],
    /* 67 */ [Lit("EOF")]
  ]

  /** Lines 68-83: Tab indentation for the generated file, kernel settings and the restart. */
  const Sysctl: seq<seq<Piece>> := [
    /* 68 */ [Lit("sudo sed -i 's/        /\t/g' /etc/ipsec.conf")],
    /* 69 */ [],
    /* 70 */ [],
    /* 71 */ [],
    /* 72 */ [Lit("cat << EOF >> /etc/sysctl.conf")],
    /* 73 */ [],
    /* 74 */ [Lit("net.ipv4.ip_forward=1")],
    /* 75 */ [Lit("net.ipv4.conf.Tunnel1.rp_filter=2 #This value allows the Linux kernel to handle asymmetric routing")],
    /* 76 */ [Lit("net.ipv4.conf.Tunnel1.disable_policy=1 #This value disables IPsec policy (SPD) for the interface")],
    /* 77 */ [Lit("net.ipv4.conf.enp39s0.disable_xfrm=1 #This value disables crypto transformations on the physical interface")],
    /* 78 */ [Lit("net.ipv4.conf.enp39s0.disable_policy=1 #This value disables IPsec policy (SPD) for the interface")],
    /* 79 */ [Lit("EOF")],
    /* 80 */ [Lit("sudo sysctl -p")],
    /* 81 */ [],
    /* 82 */ [],
    /* 83 */ [Lit("sudo ipsec restart")]
  ]
  /**
   * The whole template, one entry per line without its line break; the
   * comment on each entry gives the line of customer_gateway.py it comes from.
   */
  const UserDataLines: seq<seq<Piece>> :=
    Packages + InstanceMetadata + GatewayEndpoints + TunnelInterface +
    IpsecSetup + IpsecConnection + IpsecTimers + IpsecMark + Sysctl

  /** The keyword arguments the constructor passes to `format`. */
  datatype UserDataArgs = UserDataArgs(
    vpgwTun1PublicIp: string,
    tun1PreSharedKey: string,
    cgwTun1LinkLocalInnerIp: string,
    vpgwTun1LinkLocalInnerIp: string,
    vpcCidr: string,
    dcCidr: string)

  /** The argument a placeholder stands for. */
  function Value(a: UserDataArgs, p: Param): string {
    match p
    case Tun1PreSharedKey => a.tun1PreSharedKey
    case CgwTun1LinkLocalInnerIp => a.cgwTun1LinkLocalInnerIp
    case VpgwTun1LinkLocalInnerIp => a.vpgwTun1LinkLocalInnerIp
    case VpcCidr => a.vpcCidr
    case DcCidr => a.dcCidr
  }

  /** `USER_DATA.format(vpgw_tun1_public_ip=..., tun1_pre_shared_key=..., ...)`: the keyword map. */
  function KeywordArgs(a: UserDataArgs): map<string, string> {
    map[
      "vpgw_tun1_public_ip" := a.vpgwTun1PublicIp,
      Name(Tun1PreSharedKey) := a.tun1PreSharedKey,
      Name(CgwTun1LinkLocalInnerIp) := a.cgwTun1LinkLocalInnerIp,
      Name(VpgwTun1LinkLocalInnerIp) := a.vpgwTun1LinkLocalInnerIp,
      Name(VpcCidr) := a.vpcCidr,
      Name(DcCidr) := a.dcCidr]
  }

  /** Every placeholder's argument is in the keyword map under its name. */
  lemma KeywordArgsValue(a: UserDataArgs, p: Param)
    ensures Name(p) in KeywordArgs(a) && KeywordArgs(a)[Name(p)] == Value(a, p)
  {
    assert Name(Tun1PreSharedKey)[0] != Name(CgwTun1LinkLocalInnerIp)[0];
    assert Name(VpgwTun1LinkLocalInnerIp)[0] != Name(DcCidr)[0];
  }

  /** Each placeholder name is a plain keyword field of a format string. */
  lemma NameIsKeyword(p: Param)
    ensures StrFormat.IsKeywordName(Name(p))
  {
    match p
    case Tun1PreSharedKey => PlainKeyword("tun1_pre_shared_key");
    case CgwTun1LinkLocalInnerIp => PlainKeyword("cgw_tun1_link_local_inner_ip");
    case VpgwTun1LinkLocalInnerIp => PlainKeyword("vpgw_tun1_link_local_inner_ip");
    case VpcCidr => PlainKeyword("vpc_cidr");
    case DcCidr => PlainKeyword("dc_cidr");
  }

  /** A name whose first character is not a digit and which contains no field syntax. */
  lemma PlainKeyword(name: string)
    requires |name| >= 1 && !IsDigit(name[0])
    requires forall k :: 0 <= k < |name| ==> StrFormat.PlainFieldChar(name[k])
    ensures StrFormat.IsKeywordName(name)
  {
  }

  /** One template line as format-string segments. */
  function LineSegments(line: seq<Piece>): seq<StrFormat.Segment> {
    if line == [] then []
    else
      [match line[0]
       case Lit(t) => StrFormat.Lit(t)
       case Slot(p) => StrFormat.Field(Name(p))] + LineSegments(line[1..])
  }

  /** Template lines as format-string segments, each line followed by its line break. */
  function Segments(lines: seq<seq<Piece>>): seq<StrFormat.Segment> {
    if lines == [] then []
    else LineSegments(lines[0]) + [StrFormat.Lit("\n")] + Segments(lines[1..])
  }

  /** The `USER_DATA` format string. */
  function UserData(): string {
    StrFormat.Text(Segments(UserDataLines))
  }

  /** `USER_DATA.format(...)` as the constructor calls it. */
  function FormatUserData(a: UserDataArgs): Result<string, StrFormat.FormatError> {
    StrFormat.Format(UserData(), KeywordArgs(a))
  }

  /** A template line with each placeholder replaced by its argument. */
  function RenderLine(line: seq<Piece>, a: UserDataArgs): string {
    if line == [] then ""
    else
      RenderPiece(line[0], a) + RenderLine(line[1..], a)
  }

  /** A placeholder's argument or a literal's text. */
  function RenderPiece(piece: Piece, a: UserDataArgs): string {
    match piece
    case Lit(t) => t
    case Slot(p) => Value(a, p)
  }

  /** Rendering a line of up to five pieces, piece by piece. */
  lemma RenderPieces(line: seq<Piece>, a: UserDataArgs)
    requires |line| <= 5
    ensures |line| == 1 ==> RenderLine(line, a) == RenderPiece(line[0], a)
    ensures |line| == 2 ==> RenderLine(line, a) == RenderPiece(line[0], a) + RenderPiece(line[1], a)
    ensures |line| == 3 ==>
      RenderLine(line, a) == RenderPiece(line[0], a) + RenderPiece(line[1], a) + RenderPiece(line[2], a)
    ensures |line| == 5 ==>
      RenderLine(line, a) == RenderPiece(line[0], a) + RenderPiece(line[1], a) + RenderPiece(line[2], a) +
        RenderPiece(line[3], a) + RenderPiece(line[4], a)
  {
  }

  /** Rendered lines, each followed by a line break. */
  function Script(lines: seq<seq<Piece>>, a: UserDataArgs): string {
    if lines == [] then "" else RenderLine(lines[0], a) + "\n" + Script(lines[1..], a)
  }

  /** Line `i` of the rendered script (template line 7 + i). */
  function ScriptLine(a: UserDataArgs, i: nat): string
    requires i < |UserDataLines|
  {
    RenderLine(UserDataLines[i], a)
  }

  /** Filling a line's segments with the keyword map renders the line. */
  lemma {:induction false} FillLine(line: seq<Piece>, a: UserDataArgs)
    ensures StrFormat.Fill(LineSegments(line), KeywordArgs(a)) == Ok(RenderLine(line, a))
  {
    if line != [] {
      FillLine(line[1..], a);
      var head := LineSegments(line)[..1];
      assert LineSegments(line) == head + LineSegments(line[1..]);
      StrFormat.FillAppend(head, LineSegments(line[1..]), KeywordArgs(a));
      match line[0]
      case Lit(t) =>
        assert t + "" == t;
      case Slot(p) =>
        KeywordArgsValue(a, p);
        assert Value(a, p) + "" == Value(a, p);
    }
  }

  /** Filling the segments of several lines renders each line followed by a line break. */
  lemma {:induction false} FillScript(lines: seq<seq<Piece>>, a: UserDataArgs)
    ensures StrFormat.Fill(Segments(lines), KeywordArgs(a)) == Ok(Script(lines, a))
  {
    if lines != [] {
      var kw := KeywordArgs(a);
      FillLine(lines[0], a);
      FillScript(lines[1..], a);
      var rest := [StrFormat.Lit("\n")] + Segments(lines[1..]);
      assert Segments(lines) == LineSegments(lines[0]) + rest;
      StrFormat.FillAppend(LineSegments(lines[0]), rest, kw);
      StrFormat.FillAppend([StrFormat.Lit("\n")], Segments(lines[1..]), kw);
      assert "\n" + "" == "\n";
      StrFormat.PrefixPrefix(RenderLine(lines[0], a), "\n", Ok(Script(lines[1..], a)));
    }
  }

  /** Every field of a line's segments is the name of one of the five placeholders. */
  lemma {:induction false} LineFieldNames(line: seq<Piece>)
    ensures forall i :: 0 <= i < |LineSegments(line)| && LineSegments(line)[i].Field? ==>
      exists p :: LineSegments(line)[i].name == Name(p)
  {
    if line != [] {
      LineFieldNames(line[1..]);
      var segs := LineSegments(line);
      assert forall i :: 1 <= i < |segs| ==> segs[i] == LineSegments(line[1..])[i - 1];
      if line[0].Slot? {
        assert segs[0].name == Name(line[0].param);
      }
    }
  }

  /** Every field of the template's segments is the name of one of the five placeholders. */
  lemma {:induction false} FieldNames(lines: seq<seq<Piece>>)
    ensures forall i :: 0 <= i < |Segments(lines)| && Segments(lines)[i].Field? ==>
      exists p :: Segments(lines)[i].name == Name(p)
  {
    if lines != [] {
      LineFieldNames(lines[0]);
      FieldNames(lines[1..]);
      var line := LineSegments(lines[0]);
      var segs := Segments(lines);
      assert forall i :: 0 <= i < |line| ==> segs[i] == line[i];
      assert segs[|line|] == StrFormat.Lit("\n");
      assert forall i :: |line| < i < |segs| ==> segs[i] == Segments(lines[1..])[i - |line| - 1];
    }
  }

  /** The fields of the template's segments are plain keyword fields. */
  lemma KeywordFields(lines: seq<seq<Piece>>)
    ensures forall i :: 0 <= i < |Segments(lines)| && Segments(lines)[i].Field? ==>
      StrFormat.IsKeywordName(Segments(lines)[i].name)
  {
    FieldNames(lines);
    forall p: Param {
      NameIsKeyword(p);
    }
  }

  /**
   * `str.format` over the template text succeeds and replaces every
   * placeholder by its argument, verbatim: the result is the template with
   * each slot filled, line by line.
   */
  lemma FormatUserDataRenders(a: UserDataArgs)
    ensures FormatUserData(a) == Ok(Script(UserDataLines, a))
  {
    KeywordFields(UserDataLines);
    StrFormat.FormatText(Segments(UserDataLines), KeywordArgs(a));
    FillScript(UserDataLines, a);
  }

  /** Rendering consecutive groups of lines concatenates their scripts. */
  lemma {:induction false} ScriptAppend(l1: seq<seq<Piece>>, l2: seq<seq<Piece>>, a: UserDataArgs)
    ensures Script(l1 + l2, a) == Script(l1, a) + Script(l2, a)
  {
    if l1 == [] {
      assert l1 + l2 == l2;
    } else {
      assert (l1 + l2)[1..] == l1[1..] + l2;
      ScriptAppend(l1[1..], l2, a);
    }
  }

  /**
   * A script is the rendering of the lines before line `i`, then line `i` and
   * its line break, then the rendering of the lines after it.
   */
  lemma ScriptAt(lines: seq<seq<Piece>>, i: nat, a: UserDataArgs)
    requires i < |lines|
    ensures Script(lines, a) ==
      Script(lines[..i], a) + RenderLine(lines[i], a) + "\n" + Script(lines[i + 1..], a)
  {
    assert lines == lines[..i] + lines[i..];
    ScriptAppend(lines[..i], lines[i..], a);
    assert lines[i..][1..] == lines[i + 1..];
  }

  /** In the rendered user data, line `i` stands after the `i` lines before it. */
  lemma OutputLine(a: UserDataArgs, i: nat)
    requires i < |UserDataLines|
    ensures FormatUserData(a) ==
      Ok(Script(UserDataLines[..i], a) + ScriptLine(a, i) + "\n" + Script(UserDataLines[i + 1..], a))
  {
    FormatUserDataRenders(a);
    ScriptAt(UserDataLines, i, a);
  }

  /**
   * The secrets entry (template line 28): both public addresses are left to
   * the shell, and the pre-shared key stands between double quotes exactly as given.
   */
  lemma SecretsLine(a: UserDataArgs)
    ensures |UserDataLines| == 77
    ensures ScriptLine(a, 21) ==
      "sudo echo \"$CGW_TUN1_PUBLIC_IP $VPGW_TUN1_PUBLIC_IP : PSK \"" + a.tun1PreSharedKey +
      "\"\" >> /etc/ipsec.secrets"
  {
    assert UserDataLines[21] == TunnelInterface[0];
    RenderPieces(TunnelInterface[0], a);
  }

  /**
   * The tunnel addresses (template line 30): the customer gateway's
   * link-local address is the local end and the VPN gateway's the remote end,
   * both with prefix length 30.
   */
  lemma TunnelAddressLine(a: UserDataArgs)
    ensures |UserDataLines| == 77
    ensures ScriptLine(a, 23) ==
      "sudo ip addr add " + a.cgwTun1LinkLocalInnerIp + "/30 remote " + a.vpgwTun1LinkLocalInnerIp +
      "/30 dev Tunnel1"
  {
    assert UserDataLines[23] == TunnelInterface[2];
    RenderPieces(TunnelInterface[2], a);
  }

  /** The route (template line 32): traffic to the VPC's CIDR goes through `Tunnel1`. */
  lemma VpcRouteLine(a: UserDataArgs)
    ensures |UserDataLines| == 77
    ensures ScriptLine(a, 25) == "sudo ip route add " + a.vpcCidr + " dev Tunnel1 metric 100"
  {
    assert UserDataLines[25] == TunnelInterface[4];
    RenderPieces(TunnelInterface[4], a);
  }

  /**
   * The IPsec subnets (template lines 47 and 49): the data centre's CIDR is
   * the left (local) subnet and the VPC's CIDR the right (remote) one.
   */
  lemma SubnetLines(a: UserDataArgs)
    ensures |UserDataLines| == 77
    ensures ScriptLine(a, 40) == "        leftsubnet=" + a.dcCidr
    ensures ScriptLine(a, 42) == "        rightsubnet=" + a.vpcCidr
  {
    assert UserDataLines[40] == IpsecConnection[6];
    RenderPieces(IpsecConnection[6], a);
    assert UserDataLines[42] == IpsecConnection[8];
    RenderPieces(IpsecConnection[8], a);
  }

  /** The VTI key of `Tunnel1` and the IPsec mark of `conn Tunnel1`. */
  const TunnelMark := "100"

  /**
   * The VTI interface (template line 29) is created with key `TunnelMark`, and
   * the IPsec connection (template line 66) carries the same value as its mark.
   */
  lemma MarkMatchesVtiKey(a: UserDataArgs)
    ensures |UserDataLines| == 77
    ensures ScriptLine(a, 22) ==
      "sudo ip link add Tunnel1 type vti local $CGW_TUN1_PRIVATE_IP remote $VPGW_TUN1_PUBLIC_IP key " + TunnelMark
    ensures ScriptLine(a, 59) == "        mark=" + TunnelMark
  {
    assert UserDataLines[22] == TunnelInterface[1];
    RenderPieces(TunnelInterface[1], a);
    assert UserDataLines[59] == IpsecMark[2];
    RenderPieces(IpsecMark[2], a);
  }

  /** A template line without placeholders. */
  predicate SlotFree(line: seq<Piece>) {
    forall j :: 0 <= j < |line| ==> line[j].Lit?
  }

  /** A line without placeholders renders the same whatever the arguments. */
  lemma {:induction false} RenderSlotFree(line: seq<Piece>, a: UserDataArgs, b: UserDataArgs)
    requires SlotFree(line)
    ensures RenderLine(line, a) == RenderLine(line, b)
  {
    if line != [] {
      RenderSlotFree(line[1..], a, b);
    }
  }

  /** Within each block, the lines that hold a placeholder. */
  lemma SlotLinesOfBlocks()
    ensures forall k :: 0 <= k < |Packages| ==> SlotFree(Packages[k])
    ensures forall k :: 0 <= k < |InstanceMetadata| ==> SlotFree(InstanceMetadata[k])
    ensures forall k :: 0 <= k < |GatewayEndpoints| ==> SlotFree(GatewayEndpoints[k])
    ensures forall k :: 0 <= k < |TunnelInterface| && k != 0 && k != 2 && k != 4 ==> SlotFree(TunnelInterface[k])
    ensures forall k :: 0 <= k < |IpsecSetup| ==> SlotFree(IpsecSetup[k])
    ensures forall k :: 0 <= k < |IpsecConnection| && k != 6 && k != 8 ==> SlotFree(IpsecConnection[k])
    ensures forall k :: 0 <= k < |IpsecTimers| ==> SlotFree(IpsecTimers[k])
    ensures forall k :: 0 <= k < |IpsecMark| ==> SlotFree(IpsecMark[k])
    ensures forall k :: 0 <= k < |Sysctl| ==> SlotFree(Sysctl[k])
  {
  }

  /**
   * The arguments reach only lines 21, 23, 25, 40 and 42 of the script
   * (template lines 28, 30, 32, 47 and 49): every other line is the same
   * for all arguments, namely the template text.
   */
  lemma FixedLines(a: UserDataArgs, b: UserDataArgs, i: nat)
    requires i < |UserDataLines|
    requires i != 21 && i != 23 && i != 25 && i != 40 && i != 42
    ensures ScriptLine(a, i) == ScriptLine(b, i)
  {
    SlotLinesOfBlocks();
    RenderSlotFree(UserDataLines[i], a, b);
  }

  /**
   * Formatting the text of any template lines gives the same result for two
   * argument sets that agree on the five placeholders: the keyword maps
   * differ only in `vpgw_tun1_public_ip`, which names no field.
   */
  lemma FormatAgree(lines: seq<seq<Piece>>, a: UserDataArgs, b: UserDataArgs)
    requires forall p :: Value(a, p) == Value(b, p)
    ensures StrFormat.Format(StrFormat.Text(Segments(lines)), KeywordArgs(a)) ==
      StrFormat.Format(StrFormat.Text(Segments(lines)), KeywordArgs(b))
  {
    var segs := Segments(lines);
    KeywordFields(lines);
    FieldNames(lines);
    forall p: Param
      ensures Name(p) in KeywordArgs(a) && Name(p) in KeywordArgs(b)
      ensures KeywordArgs(a)[Name(p)] == KeywordArgs(b)[Name(p)]
    {
      KeywordArgsValue(a, p);
      KeywordArgsValue(b, p);
    }
    StrFormat.FillAgree(segs, KeywordArgs(a), KeywordArgs(b));
    StrFormat.FormatText(segs, KeywordArgs(a));
    StrFormat.FormatText(segs, KeywordArgs(b));
  }

  /**
   * `vpgw_tun1_public_ip` is passed to `format` but names no placeholder, so
   * the rendered script does not depend on it: arguments that agree on the
   * five placeholders give the same result.
   */
  lemma IgnoresVpgwPublicIp(a: UserDataArgs, b: UserDataArgs)
    requires a.tun1PreSharedKey == b.tun1PreSharedKey
    requires a.cgwTun1LinkLocalInnerIp == b.cgwTun1LinkLocalInnerIp
    requires a.vpgwTun1LinkLocalInnerIp == b.vpgwTun1LinkLocalInnerIp
    requires a.vpcCidr == b.vpcCidr && a.dcCidr == b.dcCidr
    ensures FormatUserData(a) == FormatUserData(b)
  {
    ValuesAgree(a, b);
    FormatAgree(UserDataLines, a, b);
  }

  lemma ValuesAgree(a: UserDataArgs, b: UserDataArgs)
    requires a.tun1PreSharedKey == b.tun1PreSharedKey
    requires a.cgwTun1LinkLocalInnerIp == b.cgwTun1LinkLocalInnerIp
    requires a.vpgwTun1LinkLocalInnerIp == b.vpgwTun1LinkLocalInnerIp
    requires a.vpcCidr == b.vpcCidr && a.dcCidr == b.dcCidr
    ensures forall p :: Value(a, p) == Value(b, p)
  {
  }

  /** No literal piece of a line contains `c`. */
  predicate LineLiteralsAvoid(line: seq<Piece>, c: char) {
    forall j :: 0 <= j < |line| && line[j].Lit? ==> c !in line[j].text
  }

  /** No literal piece of any of the lines contains `c`. */
  predicate LiteralsAvoid(lines: seq<seq<Piece>>, c: char) {
    forall i :: 0 <= i < |lines| ==> LineLiteralsAvoid(lines[i], c)
  }

  /** A character that neither a line's literals nor the arguments contain is not in the rendered line. */
  lemma {:induction false} RenderLineAvoids(line: seq<Piece>, a: UserDataArgs, c: char)
    requires LineLiteralsAvoid(line, c)
    requires forall p :: c !in Value(a, p)
    ensures c !in RenderLine(line, a)
  {
    if line != [] {
      assert LineLiteralsAvoid(line[1..], c) by {
        assert forall j :: 1 <= j < |line| ==> line[1..][j - 1] == line[j];
      }
      RenderLineAvoids(line[1..], a, c);
      assert c !in RenderPiece(line[0], a);
    }
  }

  /**
   * A character other than the line break that neither the literals nor the
   * arguments contain is not in the rendered script.
   */
  lemma {:induction false} ScriptAvoids(lines: seq<seq<Piece>>, a: UserDataArgs, c: char)
    requires LiteralsAvoid(lines, c) && c != '\n'
    requires forall p :: c !in Value(a, p)
    ensures c !in Script(lines, a)
  {
    if lines != [] {
      RenderLineAvoids(lines[0], a, c);
      assert LiteralsAvoid(lines[1..], c) by {
        assert forall i :: 1 <= i < |lines| ==> lines[1..][i - 1] == lines[i];
      }
      ScriptAvoids(lines[1..], a, c);
    }
  }

  /**
   * For template lines whose literal text has no brace, and arguments free of
   * braces, formatting succeeds and no brace is left in the result: every
   * replacement field was filled, and the text around the fields comes out
   * as written.
   */
  lemma NoFieldSurvives(lines: seq<seq<Piece>>, a: UserDataArgs)
    requires LiteralsAvoid(lines, '{') && LiteralsAvoid(lines, '}')
    requires forall p :: '{' !in Value(a, p) && '}' !in Value(a, p)
    ensures StrFormat.Format(StrFormat.Text(Segments(lines)), KeywordArgs(a)) == Ok(Script(lines, a))
    ensures '{' !in Script(lines, a) && '}' !in Script(lines, a)
  {
    KeywordFields(lines);
    StrFormat.FormatText(Segments(lines), KeywordArgs(a));
    FillScript(lines, a);
    ScriptAvoids(lines, a, '{');
    ScriptAvoids(lines, a, '}');
  }

  /** The rendered lines, one string per template line. */
  function RenderLines(lines: seq<seq<Piece>>, a: UserDataArgs): (r: seq<string>)
    ensures |r| == |lines| && forall i :: 0 <= i < |lines| ==> r[i] == RenderLine(lines[i], a)
  {
    if lines == [] then [] else [RenderLine(lines[0], a)] + RenderLines(lines[1..], a)
  }

  /**
   * When neither the literals nor the arguments contain a line break, the
   * script's lines are exactly the rendered template lines (the last line
   * break leaves an empty piece behind it).
   */
  lemma {:induction false} ScriptLines(lines: seq<seq<Piece>>, a: UserDataArgs)
    requires LiteralsAvoid(lines, '\n')
    requires forall p :: '\n' !in Value(a, p)
    ensures Split(Script(lines, a), '\n') == RenderLines(lines, a) + [""]
  {
    if lines != [] {
      RenderLineAvoids(lines[0], a, '\n');
      assert LiteralsAvoid(lines[1..], '\n') by {
        assert forall i :: 1 <= i < |lines| ==> lines[1..][i - 1] == lines[i];
      }
      ScriptLines(lines[1..], a);
      SplitCons(RenderLine(lines[0], a), '\n', Script(lines[1..], a));
      assert Script(lines, a) == RenderLine(lines[0], a) + ['\n'] + Script(lines[1..], a);
      assert RenderLines(lines, a) + [""] == [RenderLine(lines[0], a)] + (RenderLines(lines[1..], a) + [""]);
    }
  }
}
