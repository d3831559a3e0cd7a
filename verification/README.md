# Site-to-site VPN: tunnel addresses and the customer gateway boot script

This project is a Dafny model of the two pieces of the site-to-site VPN
deployment that compute something locally, rather than declare cloud
resources:

- **Tunnel link-local addresses** (`VpnConnection`). The VPN connection
  construct reads the tunnel's inside CIDR with `ipaddress.ip_network`. It
  rejects anything that is not an IPv4 network and lists the block's hosts as
  dotted-quad strings (`_get_hosts`). The constructor unpacks that list into
  exactly two names: the lower host for the virtual private gateway, the
  higher one for the customer gateway.
- **Customer gateway boot script** (`CustomerGateway`). The `USER_DATA`
  template is a bash script that installs strongSwan, creates the `Tunnel1`
  VTI interface, writes `ipsec.secrets`, `ipsec.conf` and `sysctl.conf`, and
  restarts IPsec. The constructor renders it with `str.format` and six
  keyword arguments.

The supporting modules are:

- `Strings`: decimal digits and `split`/`join`.
- `Ipv4`: the strict address, netmask and network parsing of Python's
  `ipaddress` module, plus `hosts()`.
- `StrFormat`: `str.format` restricted to keyword fields, with `{{`/`}}`
  escapes and its errors.
- `Deployment`: connects the two parts the way the data-centre stack passes
  the addresses on.

The template is kept line by line, as literal pieces and placeholder slots,
and the format string is the text those pieces spell. The model proves the
following:

- Formatting that text succeeds for any arguments.
- It puts each argument verbatim into its slot.
- The arguments reach exactly five of the 77 lines.
- The unused `vpgw_tun1_public_ip` argument has no effect.

For addresses it proves:

- the text round trips of addresses and networks;
- that only canonical dotted quads are accepted;
- the host count and host membership of every block;
- that the constructor's two-name unpacking succeeds exactly for /30 and /31
  inside blocks, and what it yields then (`169.254.88.80/30` gives `169.254.88.81` and
  `169.254.88.82`).

Two behaviours of the code are worth stating plainly, because the model
keeps them:

- The constructor's own code checks none of its string arguments before
  `format`. The pre-shared key and the VPC and data-centre CIDRs go into
  `format` as given, so the model renders any strings.
- The two-name unpacking succeeds for a /31 inside block as well as a /30
  one. A /31 block yields both of its addresses
  (`VpnConnection.TunnelIpsOfSlash31`).

## Model

| member | source | states |
|---|---|---|
| Strings.Decimal | src/site_to_site_vpn/constructs/vpn_connection.py:138 | `str(n)` of a natural is a canonical digit string (no leading zero) whose value is n; one digit below 10, at most three below 1000 |
| Strings.DecimalOfValue | src/site_to_site_vpn/constructs/vpn_connection.py:135 | every canonical digit string is the decimal form of its value (reading then writing is the identity) |
| Strings.Split | src/site_to_site_vpn/constructs/vpn_connection.py:135 | `s.split(sep)` has at least one piece, no piece contains the separator, and joining the pieces gives back s |
| Strings.SplitJoin | src/site_to_site_vpn/constructs/vpn_connection.py:135 | splitting undoes joining when no piece contains the separator |
| Ipv4.ParseOctet | src/site_to_site_vpn/constructs/vpn_connection.py:135 | one octet of an address text; what it accepts is stated by `Ipv4.ParseOctetCanonical` and `Ipv4.OctetRoundTrip` |
| Ipv4.ParseOctetCanonical | src/site_to_site_vpn/constructs/vpn_connection.py:135 | an accepted octet text is a byte written in canonical decimal: no leading zero, no other spelling |
| Ipv4.OctetRoundTrip | src/site_to_site_vpn/constructs/vpn_connection.py:135 | the decimal form of every byte is accepted as that byte |
| Ipv4.ParseAddress | src/site_to_site_vpn/constructs/vpn_connection.py:135 | an accepted address text denotes an address below 2^32 |
| Ipv4.FormatAddress | src/site_to_site_vpn/constructs/vpn_connection.py:138 | `str(h)`; its partners are `Ipv4.AddressRoundTrip` (parsing undoes it), `Ipv4.ParseAddressCanonical` (it undoes parsing) and `Ipv4.FormatAddressInjective` |
| Ipv4.AddressRoundTrip | src/site_to_site_vpn/constructs/vpn_connection.py:138 | parsing the dotted-quad form `str(h)` of any address gives that address back |
| Ipv4.ParseAddressCanonical | src/site_to_site_vpn/constructs/vpn_connection.py:135 | strict parsing: every accepted address text is exactly the dotted-quad form of its value (no leading zeros, no other spellings) |
| Ipv4.ParsedAddressValue | src/site_to_site_vpn/constructs/vpn_connection.py:135 | an accepted address text has a value whose dotted-quad form is the text itself |
| Ipv4.FormatOfPieces | src/site_to_site_vpn/constructs/vpn_connection.py:135 | a text whose dot-separated pieces are the decimal forms of four bytes is the dotted-quad form of the address they compose |
| Ipv4.FormatAddressInjective | src/site_to_site_vpn/constructs/vpn_connection.py:138 | distinct addresses have distinct dotted-quad texts |
| Ipv4.OctetsValue | src/site_to_site_vpn/constructs/vpn_connection.py:138 | the four octets of an address are bytes and recompose to the address |
| Ipv4.OctetsOfValue | src/site_to_site_vpn/constructs/vpn_connection.py:135 | four bytes compose to an address whose octets are those bytes |
| Ipv4.FormatOctets | src/site_to_site_vpn/constructs/vpn_connection.py:138 | the dotted-quad form of a composed address is its four octets in decimal, joined by dots |
| Ipv4.FormatOfOctets | src/site_to_site_vpn/constructs/vpn_connection.py:138 | four bytes whose decimal forms are given texts format as those texts joined by dots |
| Ipv4.ParsedAddressAlphabet | src/site_to_site_vpn/constructs/vpn_connection.py:135 | an accepted address text holds only digits and dots |
| Ipv4.ParsedNetworkAlphabet | src/site_to_site_vpn/constructs/vpn_connection.py:135-137 | a text not rejected as malformed holds only digits, dots and slashes |
| Ipv4.ColonTextRejected | src/site_to_site_vpn/constructs/vpn_connection.py:135-137 | any text with a colon (every IPv6 network text) is rejected, so only IPv4 networks get past the check |
| Ipv4.Network.Broadcast | src/site_to_site_vpn/constructs/vpn_connection.py:138 | the last address of a valid block lies between its base and 2^32 |
| Ipv4.BlockFits | src/site_to_site_vpn/constructs/vpn_connection.py:135 | an aligned block whose base is below 2^32 ends at or below 2^32 |
| Ipv4.PrefixOfNetmask | src/site_to_site_vpn/constructs/vpn_connection.py:135 | finds the prefix length whose netmask is the given value, or shows there is none |
| Ipv4.MaskPrefix | src/site_to_site_vpn/constructs/vpn_connection.py:135 | a prefix written as a dotted quad is read as a netmask, failing that as a hostmask, and gives a length of at most 32 |
| Ipv4.ParsePrefix | src/site_to_site_vpn/constructs/vpn_connection.py:135 | a prefix written as digits, a netmask or a hostmask gives a length of at most 32; what each spelling yields is stated by `Ipv4.PaddedPrefixText`, `Ipv4.NetmaskText`, `Ipv4.HostmaskText` and `Ipv4.MaskText` |
| Ipv4.ParseNetwork | src/site_to_site_vpn/constructs/vpn_connection.py:135 | `ip_network(s)` in strict mode: every block it accepts is valid (prefix ≤ 32, base below 2^32, no host bits set); what each spelling yields is stated by `Ipv4.NetworkTextRoundTrip` and the `Ipv4.Network…Text` lemmas |
| Ipv4.NetmaskPrefix | src/site_to_site_vpn/constructs/vpn_connection.py:135 | the netmask of a /p block is recognised as the netmask of exactly p |
| Ipv4.Hostmask | src/site_to_site_vpn/constructs/vpn_connection.py:135 | the hostmask of a /p block is an address whose complement is the netmask of p |
| Ipv4.HostmaskIsNoNetmask | src/site_to_site_vpn/constructs/vpn_connection.py:135 | for 0 < p < 32 the hostmask of p is the netmask of no prefix length |
| Ipv4.HostmaskPrefix | src/site_to_site_vpn/constructs/vpn_connection.py:135 | read as a mask, the hostmask of p (0 < p < 32) stands for p |
| Ipv4.FormatAddressNotDigits | src/site_to_site_vpn/constructs/vpn_connection.py:135 | a dotted quad is never read as a decimal prefix length |
| Ipv4.MaskText | src/site_to_site_vpn/constructs/vpn_connection.py:135 | a prefix text in dotted-quad form is read as that mask |
| Ipv4.NetmaskText | src/site_to_site_vpn/constructs/vpn_connection.py:135 | a prefix written as the netmask of p gives p, for every p ≤ 32 |
| Ipv4.HostmaskText | src/site_to_site_vpn/constructs/vpn_connection.py:135 | a prefix written as the hostmask of p gives p, for 0 < p < 32 (the hostmasks of /0 and /32 are the netmasks of /32 and /0) |
| Ipv4.PaddedPrefixText | src/site_to_site_vpn/constructs/vpn_connection.py:135 | a decimal prefix length with leading zeros gives that length if it is at most 32 and the text has at most 4300 digits (the default limit of `int()`), and is rejected otherwise |
| Ipv4.NetworkPrefixText | src/site_to_site_vpn/constructs/vpn_connection.py:135 | `a/t` is the block at a under the prefix t denotes; an unrecognised prefix is malformed, and an address that is not the block's base has host bits set |
| Ipv4.NetworkAddressText | src/site_to_site_vpn/constructs/vpn_connection.py:135 | an address without a slash is the /32 block of that address |
| Ipv4.NetworkNetmaskText | src/site_to_site_vpn/constructs/vpn_connection.py:135 | an address with a netmask denotes the block of that prefix length, or has host bits set |
| Ipv4.NetworkHostmaskText | src/site_to_site_vpn/constructs/vpn_connection.py:135 | an address with a hostmask denotes the block of that prefix length, or has host bits set |
| Ipv4.NetworkPaddedText | src/site_to_site_vpn/constructs/vpn_connection.py:135 | an address with a zero-padded prefix length denotes the same block as without the padding; above 32, or past 4300 digits, the text is malformed |
| Ipv4.NetworkTextRoundTrip | src/site_to_site_vpn/constructs/vpn_connection.py:135 | `a/p` in canonical form parses to `Network(a, p)` exactly when p ≤ 32 and no host bit is set; otherwise it gives the matching error |
| Ipv4.Range | src/site_to_site_vpn/constructs/vpn_connection.py:138 | `range(lo, hi)` has hi − lo elements, the i-th being lo + i |
| Ipv4.Hosts | src/site_to_site_vpn/constructs/vpn_connection.py:138 | `hosts()` is strictly ascending and every host lies in the block |
| Ipv4.HostsCount | src/site_to_site_vpn/constructs/vpn_connection.py:138 | a block of size 2^(32−p) has 2^(32−p) − 2 hosts for p ≤ 30, 2 for /31 and 1 for /32 |
| Ipv4.HostsMembership | src/site_to_site_vpn/constructs/vpn_connection.py:138 | for p ≤ 30 an address is a host iff it lies strictly between the network and broadcast addresses; for /31 and /32 iff it lies in the block |
| Ipv4.Slash30Hosts | src/site_to_site_vpn/constructs/vpn_connection.py:138 | a /30 block at b has broadcast b+3 and exactly the hosts b+1, b+2 |
| Ipv4.Slash31Hosts | src/site_to_site_vpn/constructs/vpn_connection.py:138 | a /31 block at b has both b and b+1 as hosts |
| VpnConnection.GetHosts | src/site_to_site_vpn/constructs/vpn_connection.py:133-139 | a parse error propagates; otherwise one string per host, in order, each the dotted-quad text of that host and parsing back to it |
| VpnConnection.TunnelIps | src/site_to_site_vpn/constructs/vpn_connection.py:25-27 | the two-name unpacking of the host list; its contract is stated by `VpnConnection.TunnelIpsCases` (when it succeeds), `VpnConnection.TunnelIpsOfSlash30`/`TunnelIpsOfSlash31` (what it yields) and `VpnConnection.TunnelIpsInsideBlock` (where the addresses lie) |
| VpnConnection.TunnelIpsCases | src/site_to_site_vpn/constructs/vpn_connection.py:25-27 | the two-name unpacking succeeds iff the inside block is /30 or /31; otherwise it fails with the host count, and a malformed CIDR fails as such |
| VpnConnection.TwoHosts | src/site_to_site_vpn/constructs/vpn_connection.py:138 | a block has exactly two hosts iff its prefix length is 30 or 31 |
| VpnConnection.TunnelIpsOfSlash30 | src/site_to_site_vpn/constructs/vpn_connection.py:25-27 | for a /30 at b the VPN gateway gets b+1 and the customer gateway b+2 |
| VpnConnection.TunnelIpsOfSlash31 | src/site_to_site_vpn/constructs/vpn_connection.py:25-27 | for a /31 at b the VPN gateway gets b and the customer gateway b+1 |
| VpnConnection.TunnelIpsInsideBlock | src/site_to_site_vpn/constructs/vpn_connection.py:25-27 | on success both addresses parse, lie in the inside block and differ, with the VPN gateway's the lower; for /30 neither is the network or the broadcast address |
| VpnConnection.ExampleInsideCidr | src/site_to_site_vpn/constructs/vpn_connection.py:25-27 | `169.254.88.80/30` gives `169.254.88.81` to the VPN gateway and `169.254.88.82` to the customer gateway |
| StrFormat.FieldStop | src/site_to_site_vpn/constructs/customer_gateway.py:104-111 | finds the first character at or after i that ends a field name (`{`, `}`, `[`, `:` or `!`), or shows there is none |
| StrFormat.Format | src/site_to_site_vpn/constructs/customer_gateway.py:104-111 | `str.format` with keyword arguments; its contract is stated by `StrFormat.FormatText` (the result is the intended filling), `StrFormat.EscapeFormat`, `StrFormat.FormatField`, `StrFormat.OpenBraceInName` and `StrFormat.UnclosedField` |
| StrFormat.OpenBraceInName | src/site_to_site_vpn/constructs/customer_gateway.py:104-111 | a `{` inside a field name is a `ValueError`, whatever follows it |
| StrFormat.UnclosedField | src/site_to_site_vpn/constructs/customer_gateway.py:104-111 | a `{` that no `}`, `{`, `[`, `:` or `!` follows is a `ValueError`: the text ends inside the field |
| StrFormat.Escape | src/site_to_site_vpn/constructs/customer_gateway.py:7-84 | brace-free literal text is its own format-string form |
| StrFormat.Fill | src/site_to_site_vpn/constructs/customer_gateway.py:104-111 | filling succeeds iff every field name is a keyword argument; otherwise the error is `KeyError` for the first missing name |
| StrFormat.FillAppend | src/site_to_site_vpn/constructs/customer_gateway.py:104-111 | filling a concatenation fills the parts in turn and stops at the first error |
| StrFormat.FillAgree | src/site_to_site_vpn/constructs/customer_gateway.py:104-111 | keyword maps that agree on the field names give the same result; other arguments are ignored |
| StrFormat.EscapeFormat | src/site_to_site_vpn/constructs/customer_gateway.py:104-111 | `format` turns escaped literal text back into that text and resumes right after it |
| StrFormat.FormatField | src/site_to_site_vpn/constructs/customer_gateway.py:104-111 | a keyword field becomes its argument verbatim, without rescanning; a missing name is `KeyError` |
| StrFormat.FormatText | src/site_to_site_vpn/constructs/customer_gateway.py:104-111 | `format` over the text of literal and keyword segments equals the intended filling |
| CustomerGateway.UserData | src/site_to_site_vpn/constructs/customer_gateway.py:7-84 | the `USER_DATA` format string, spelled by the template lines; its fields are stated by `CustomerGateway.FieldNames` and `CustomerGateway.KeywordFields` |
| CustomerGateway.KeywordArgs | src/site_to_site_vpn/constructs/customer_gateway.py:104-111 | the six keyword arguments; `CustomerGateway.KeywordArgsValue` states that each placeholder finds its argument |
| CustomerGateway.FormatUserData | src/site_to_site_vpn/constructs/customer_gateway.py:104-111 | `USER_DATA.format(...)`; `CustomerGateway.FormatUserDataRenders` states that it never fails and fills every slot verbatim |
| CustomerGateway.KeywordArgsValue | src/site_to_site_vpn/constructs/customer_gateway.py:104-111 | each placeholder's argument is in the keyword map under the placeholder's name |
| CustomerGateway.NameIsKeyword | src/site_to_site_vpn/constructs/customer_gateway.py:28-49 | each placeholder name in the template is a plain keyword field |
| CustomerGateway.FillLine | src/site_to_site_vpn/constructs/customer_gateway.py:104-111 | filling one template line with the keyword map always succeeds and renders the line |
| CustomerGateway.FillScript | src/site_to_site_vpn/constructs/customer_gateway.py:104-111 | filling any run of template lines succeeds and renders each line followed by a line break |
| CustomerGateway.FieldNames | src/site_to_site_vpn/constructs/customer_gateway.py:7-84 | every field in the template names one of the five placeholders |
| CustomerGateway.KeywordFields | src/site_to_site_vpn/constructs/customer_gateway.py:7-84 | every field in the template is a plain keyword field (no index, attribute, conversion or format spec) |
| CustomerGateway.FormatUserDataRenders | src/site_to_site_vpn/constructs/customer_gateway.py:104-111 | `USER_DATA.format(...)` never fails and yields the template with every slot replaced verbatim by its argument |
| CustomerGateway.ScriptAt | src/site_to_site_vpn/constructs/customer_gateway.py:7-84 | a rendered script is the lines before line i, then line i and its line break, then the lines after it |
| CustomerGateway.OutputLine | src/site_to_site_vpn/constructs/customer_gateway.py:7-84 | in the formatted user data, rendered template line i stands after the i lines before it |
| CustomerGateway.SecretsLine | src/site_to_site_vpn/constructs/customer_gateway.py:28 | the secrets line leaves both public addresses to the shell and puts the pre-shared key between double quotes, unchanged |
| CustomerGateway.TunnelAddressLine | src/site_to_site_vpn/constructs/customer_gateway.py:30 | the customer gateway's link-local address is the local end of `Tunnel1` and the VPN gateway's the remote end, both /30 |
| CustomerGateway.VpcRouteLine | src/site_to_site_vpn/constructs/customer_gateway.py:32 | traffic to the VPC CIDR is routed through `Tunnel1` |
| CustomerGateway.SubnetLines | src/site_to_site_vpn/constructs/customer_gateway.py:47-49 | the data-centre CIDR is the left (local) IPsec subnet and the VPC CIDR the right (remote) one |
| CustomerGateway.MarkMatchesVtiKey | src/site_to_site_vpn/constructs/customer_gateway.py:29-66 | the VTI key of `Tunnel1` and the IPsec mark of `conn Tunnel1` are the same value, 100 |
| CustomerGateway.SlotLinesOfBlocks | src/site_to_site_vpn/constructs/customer_gateway.py:7-84 | in each block of the template, the lines other than the five listed hold no placeholder |
| CustomerGateway.FixedLines | src/site_to_site_vpn/constructs/customer_gateway.py:7-84 | every script line except the five placeholder lines is the same for all arguments |
| CustomerGateway.FormatAgree | src/site_to_site_vpn/constructs/customer_gateway.py:104-111 | argument sets that agree on the five placeholders format any template lines identically |
| CustomerGateway.IgnoresVpgwPublicIp | src/site_to_site_vpn/constructs/customer_gateway.py:105 | `vpgw_tun1_public_ip` names no placeholder: the rendered user data does not depend on it |
| CustomerGateway.RenderLineAvoids | src/site_to_site_vpn/constructs/customer_gateway.py:7-84 | a character in neither a line's literal text nor the arguments is not in the rendered line |
| CustomerGateway.ScriptAvoids | src/site_to_site_vpn/constructs/customer_gateway.py:7-84 | a character other than the line break, in neither the literal text nor the arguments, is not in the rendered script |
| CustomerGateway.NoFieldSurvives | src/site_to_site_vpn/constructs/customer_gateway.py:104-111 | for template lines whose literal text has no brace and arguments without braces, formatting succeeds and leaves no brace: every field is filled |
| CustomerGateway.RenderLines | src/site_to_site_vpn/constructs/customer_gateway.py:7-84 | one rendered string per template line, in order |
| CustomerGateway.ScriptLines | src/site_to_site_vpn/constructs/customer_gateway.py:7-84 | when neither literal text nor arguments hold a line break, splitting the script at line breaks gives exactly the rendered template lines, then an empty piece |
| Deployment.GatewayArgs | src/site_to_site_vpn/stacks/datacenter.py:79-80 | the customer gateway's derived address goes to `cgw_tun1_link_local_inner_ip` and the VPN gateway's to `vpgw_tun1_link_local_inner_ip`; `Deployment.TunnelEndsOfInsideBlock` states the resulting tunnel line |
| Deployment.TunnelEndsOfInsideBlock | src/site_to_site_vpn/stacks/datacenter.py:71-83 | with the derived addresses passed on as the stack does, a /30 inside block at b gives the tunnel line local end b+2/30 and remote end b+1/30 |

## Left out

- The cloud resources (VPC, VPN gateway, customer gateway resource, VPN
  connection, SSM parameters, routes, EC2 instance, Elastic IP, security
  group rule, `allow_ssh_from_local`) are declarations for the deployment
  framework. They compute nothing locally and are not modelled.
- What the boot script does when bash runs it is not modelled: package
  installation, metadata lookups, `ip`, `ipsec` and `sysctl`. One example is
  how bash reads the quotes around the pre-shared key on the secrets line.
  The model stops at the rendered text.
- The Base64 encoding of the user data (src/site_to_site_vpn/constructs/ec2.py:82)
  is not modelled.
- Wiring the VPN connection's addresses into the data-centre stack happens
  through deployment inputs outside this model. `Deployment.GatewayArgs`
  models only the assignment of names the stack performs.
- IPv6 networks are not parsed. Every error for a text that is not an IPv4
  network yields `NotAnIpv4Network`. This merges the module's "does not
  appear to be an IPv4 or IPv6 network" error, the construct's "Only IPv4
  networks are supported" error and the "has host bits set" error of an
  IPv6 text such as `::1/64`; all are `ValueError`.
- The error messages of `ipaddress` and `str.format` are not modelled, only
  the kind of error. A `{` at the very end ("Single '{'") and a field cut
  off by the end of the text ("expected '}' before end of string") become
  one `UnmatchedOpenBrace`.
- StrFormat.Format: positional, attribute, index, conversion and format-spec
  fields yield `UnsupportedField` instead of being evaluated. Their own
  syntax errors (an unclosed `[`, a malformed conversion) are not told
  apart. The template uses none of these fields
  (`CustomerGateway.KeywordFields`).
- StrFormat.Format: a field name made only of non-ASCII Unicode decimal
  digits (such as `{٣}`) is looked up as a keyword. Python reads it as a
  positional index, so with keyword arguments only it raises `IndexError`.
  Only ASCII digit names are treated as positional here. The template's
  field names are ASCII letters and underscores
  (`CustomerGateway.NameIsKeyword`).
- Ipv4.Hosts: `hosts()` is a lazy iterator in Python, and a large block
  makes `_get_hosts` build a huge list. The model is the list's value; time
  and memory are not modelled.
- CustomerGateway.NoFieldSurvives and CustomerGateway.ScriptLines are
  proved for any template lines whose literal text has no brace (no line
  break). That `UserDataLines` itself has this property is not proved: the
  verifier cannot settle whether a character occurs in a string literal
  longer than a few dozen characters, and the template's lines run to 230.
  Read directly, no literal piece contains `{`, `}` or a line break.
- CustomerGateway.ScriptLine is line i of the template as rendered and
  placed between line breaks (`CustomerGateway.OutputLine`). A
  line-splitting reader sees the same lines only when no argument contains
  a line break (`CustomerGateway.ScriptLines`).
- The validation of the inside CIDR by the deployment framework is not
  modelled. After the unpacking, the constructor passes the same
  `tun1_inner_cidr` to `ec2.VpnTunnelOption` and `add_vpn_connection`
  (src/site_to_site_vpn/constructs/vpn_connection.py:39-47). Those library
  calls are outside this model, and they may reject blocks that the
  unpacking accepts, such as a /31 or a block outside 169.254.0.0/16. Every
  statement here about success is about the unpacking alone.
- The validation of the data-centre CIDR by the deployment framework is not
  modelled. After rendering, the customer gateway passes `dc_cidr` to
  `ec2.Peer.ipv4` (src/site_to_site_vpn/constructs/customer_gateway.py:125-127).
  That library call is outside this model, and it may reject a text that
  `format` renders, such as one that is not an IPv4 CIDR with a mask.
- Ipv4.ParsePrefix, Ipv4.PaddedPrefixText and Ipv4.NetworkPaddedText follow
  CPython 3.11 and later, and the 3.7.14, 3.8.14, 3.9.14 and 3.10.7 security
  releases. On these versions `int()` refuses a text of more than 4300
  digits, leading zeros included, so a longer decimal prefix length is
  rejected. Older versions accept any number of leading zeros. The limit is
  the default; changing it at run time (`sys.set_int_max_str_digits`) is not
  modelled. The octet rule (no leading zeros) already assumes 3.9.5 or later.
- A /31 inside block gets past the unpacking. The template still writes
  `/30` after both link-local addresses, and the model renders exactly
  that (`CustomerGateway.TunnelAddressLine`).
