/**
 * IPv4 addresses and CIDR blocks (section 3.1 of RFC 4632), with the textual
 * forms and host enumeration of Python's `ipaddress` module as used by
 * `ipaddress.ip_network(text)` (strict mode) and `IPv4Network.hosts()`.
 *
 * Addresses are the naturals below 2^32; a block is a base address and a
 * prefix length.
 */
module Ipv4 {
  import opened Wrappers
  import opened Strings

  /** Number of IPv4 addresses. */
  const AddressCount: nat := 0x1_0000_0000
  const MaxPrefixLen: nat := 32
  /** The most digits `int()` reads from a string, by default, since CPython 3.11. */
  const MaxIntDigits: nat := 4300

  function Pow2(k: nat): (r: nat)
    ensures r >= 1
  {
    if k == 0 then 1 else 2 * Pow2(k - 1)
  }

  lemma {:induction false} Pow2Add(a: nat, b: nat)
    ensures Pow2(a + b) == Pow2(a) * Pow2(b)
  {
    if a > 0 {
      Pow2Add(a - 1, b);
    }
  }

  lemma {:induction false} Pow2Monotone(j: nat, k: nat)
    requires j <= k
    ensures Pow2(j) <= Pow2(k)
  {
    if j < k {
      Pow2Monotone(j, k - 1);
    }
  }

  lemma Pow2ThirtyTwo()
    ensures Pow2(32) == AddressCount
  {
    assert Pow2(4) == 16;
    Pow2Add(4, 4);
    Pow2Add(8, 8);
    Pow2Add(16, 16);
  }

  /** Number of addresses in a block whose prefix is p bits long. */
  function BlockSize(p: nat): nat
    requires p <= MaxPrefixLen
  {
    Pow2(MaxPrefixLen - p)
  }

  /** The numeric value of the netmask of a /p block: p one bits, then 32 - p zero bits. */
  function Netmask(p: nat): nat
    requires p <= MaxPrefixLen
  {
    BlockFits(0, p);
    AddressCount - BlockSize(p)
  }

  /** An aligned block starting below 2^32 ends at or below 2^32. */
  lemma BlockFits(base: nat, p: nat)
    requires p <= MaxPrefixLen && base < AddressCount && base % BlockSize(p) == 0
    ensures base + BlockSize(p) <= AddressCount
  {
    Pow2Add(MaxPrefixLen - p, p);
    Pow2ThirtyTwo();
    AlignedFits(base, BlockSize(p), Pow2(p), AddressCount);
  }

  /** A multiple of size below size * count leaves room for one more block of that size. */
  lemma AlignedFits(base: nat, size: nat, count: nat, total: nat)
    requires size > 0 && size * count == total && base < total && base % size == 0
    ensures base + size <= total
  {
    var q := base / size;
    assert base == size * q;
    assert q + 1 <= count by {
      if q + 1 > count {
        MulMonotonic(size, count, q);
      }
    }
    MulMonotonic(size, q + 1, count);
    MulSucc(size, q);
  }

  lemma MulSucc(s: nat, q: nat)
    ensures s * (q + 1) == s * q + s
  {
  }

  lemma MulMonotonic(s: nat, x: nat, y: nat)
    requires x <= y
    ensures s * x <= s * y
  {
  }

  /** A CIDR block `base/prefix`. */
  datatype Network = Network(base: nat, prefix: nat) {

    /** The prefix is at most 32 bits and the base address has no host bits set. */
    predicate Valid() {
      base < AddressCount && prefix <= MaxPrefixLen && base % BlockSize(prefix) == 0
    }

    /** The last address of the block (its broadcast address when prefix <= 30). */
    function Broadcast(): (r: nat)
      requires Valid()
      ensures base <= r < AddressCount
    {
      BlockFits(base, prefix);
      base + BlockSize(prefix) - 1
    }

    predicate Contains(a: nat)
      requires Valid()
    {
      base <= a <= Broadcast()
    }
  }

  // ---------------------------------------------------------------------
  // Text forms
  // ---------------------------------------------------------------------

  /** One decimal octet: 1 to 3 digits, no leading zero, at most 255. */
  function ParseOctet(s: string): Option<nat> {
    if Canonical(s) && |s| <= 3 && DigitsValue(s) <= 255 then Some(DigitsValue(s)) else None
  }

  /** Only the decimal form of a byte is accepted as an octet. */
  lemma ParseOctetCanonical(s: string)
    requires ParseOctet(s).Some?
    ensures ParseOctet(s).value <= 255 && Decimal(ParseOctet(s).value) == s
  {
    DecimalOfValue(s);
  }

  /** The decimal form of every byte is accepted as that byte. */
  lemma OctetRoundTrip(n: nat)
    requires n <= 255
    ensures ParseOctet(Decimal(n)) == Some(n)
  {
  }

  /** `IPv4Address(s)`: exactly four dot-separated octets, most significant first. */
  function ParseAddress(s: string): (r: Option<nat>)
    ensures r.Some? ==> r.value < AddressCount
  {
    var parts := Split(s, '.');
    if |parts| != 4 then None
    else
      match (ParseOctet(parts[0]), ParseOctet(parts[1]), ParseOctet(parts[2]), ParseOctet(parts[3]))
      case (Some(a), Some(b), Some(c), Some(d)) => Some(((a * 256 + b) * 256 + c) * 256 + d)
      case _ => None
  }

  /** The four octets of an address, most significant first. */
  function Octets(a: nat): seq<nat>
    requires a < AddressCount
  {
    [a / 256 / 256 / 256, a / 256 / 256 % 256, a / 256 % 256, a % 256]
  }

  /** Four octets written in decimal and joined with dots. */
  function DottedQuad(o: seq<nat>): string
    requires |o| == 4
  {
    Join([Decimal(o[0]), Decimal(o[1]), Decimal(o[2]), Decimal(o[3])], '.')
  }

  /** `str(IPv4Address(a))`: the dotted-quad form. */
  function FormatAddress(a: nat): string
    requires a < AddressCount
  {
    DottedQuad(Octets(a))
  }

  /** Reading back the dotted-quad form of an address gives the address. */
  lemma AddressRoundTrip(a: nat)
    requires a < AddressCount
    ensures ParseAddress(FormatAddress(a)) == Some(a)
  {
    var o := Octets(a);
    OctetsValue(a);
    var parts := [Decimal(o[0]), Decimal(o[1]), Decimal(o[2]), Decimal(o[3])];
    assert Split(FormatAddress(a), '.') == parts by {
      forall i | 0 <= i < 4
        ensures '.' !in parts[i]
      {
        DecimalDotFree(o[i]);
      }
      SplitJoin(parts, '.');
    }
    assert ParseOctet(parts[0]) == Some(o[0]) && ParseOctet(parts[1]) == Some(o[1]);
    assert ParseOctet(parts[2]) == Some(o[2]) && ParseOctet(parts[3]) == Some(o[3]);
  }

  lemma DecimalDotFree(n: nat)
    ensures '.' !in Decimal(n)
  {
  }

  /** The octets of an address are bytes and recompose to the address. */
  lemma OctetsValue(a: nat)
    requires a < AddressCount
    ensures var o := Octets(a);
      o[0] < 256 && o[1] < 256 && o[2] < 256 && o[3] < 256 &&
      ((o[0] * 256 + o[1]) * 256 + o[2]) * 256 + o[3] == a
  {
    var q1 := a / 256;
    var q2 := q1 / 256;
    var q3 := q2 / 256;
    assert a == q1 * 256 + a % 256;
    assert q1 == q2 * 256 + q1 % 256;
    assert q2 == q3 * 256 + q2 % 256;
  }

  lemma DivMod256(q: nat, r: nat)
    requires r < 256
    ensures (q * 256 + r) / 256 == q && (q * 256 + r) % 256 == r
  {
  }

  lemma OctetsOfValue(a: nat, b: nat, c: nat, d: nat)
    requires a < 256 && b < 256 && c < 256 && d < 256
    ensures ((a * 256 + b) * 256 + c) * 256 + d < AddressCount
    ensures Octets(((a * 256 + b) * 256 + c) * 256 + d) == [a, b, c, d]
  {
    DivMod256((a * 256 + b) * 256 + c, d);
    DivMod256(a * 256 + b, c);
    DivMod256(a, b);
  }

  lemma FormatOctets(a: nat, b: nat, c: nat, d: nat)
    requires a < 256 && b < 256 && c < 256 && d < 256
    ensures ((a * 256 + b) * 256 + c) * 256 + d < AddressCount
    ensures FormatAddress(((a * 256 + b) * 256 + c) * 256 + d) == DottedQuad([a, b, c, d])
  {
    OctetsOfValue(a, b, c, d);
  }

  /** A parsed address text: its value, whose dotted quad is the text itself. */
  lemma ParsedAddressValue(s: string) returns (v: nat)
    requires ParseAddress(s).Some?
    ensures ParseAddress(s) == Some(v) && FormatAddress(v) == s
  {
    var parts := Split(s, '.');
    var a, b, c, d := ParseOctet(parts[0]).value, ParseOctet(parts[1]).value,
      ParseOctet(parts[2]).value, ParseOctet(parts[3]).value;
    ParseOctetCanonical(parts[0]);
    ParseOctetCanonical(parts[1]);
    ParseOctetCanonical(parts[2]);
    ParseOctetCanonical(parts[3]);
    FormatOfPieces(s, a, b, c, d);
    v := ((a * 256 + b) * 256 + c) * 256 + d;
  }

  /** Only the dotted-quad form is accepted: an address text is the formatting of its value. */
  lemma ParseAddressCanonical(s: string)
    requires ParseAddress(s).Some?
    ensures FormatAddress(ParseAddress(s).value) == s
  {
    var v := ParsedAddressValue(s);
  }

  /** A text whose dot-separated pieces are the decimal forms of four bytes is their dotted quad. */
  lemma FormatOfPieces(s: string, a: nat, b: nat, c: nat, d: nat)
    requires a < 256 && b < 256 && c < 256 && d < 256
    requires var parts := Split(s, '.');
      |parts| == 4 &&
      Decimal(a) == parts[0] && Decimal(b) == parts[1] && Decimal(c) == parts[2] && Decimal(d) == parts[3]
    ensures FormatAddress(((a * 256 + b) * 256 + c) * 256 + d) == s
  {
    FormatOfOctets(a, b, c, d, Split(s, '.'));
  }

  /** Four bytes whose decimal forms are the given texts format as those texts joined with dots. */
  lemma FormatOfOctets(a: nat, b: nat, c: nat, d: nat, texts: seq<string>)
    requires a < 256 && b < 256 && c < 256 && d < 256
    requires |texts| == 4
    requires Decimal(a) == texts[0] && Decimal(b) == texts[1] && Decimal(c) == texts[2] && Decimal(d) == texts[3]
    ensures ((a * 256 + b) * 256 + c) * 256 + d < AddressCount
    ensures FormatAddress(((a * 256 + b) * 256 + c) * 256 + d) == Join(texts, '.')
  {
    DottedQuadOfTexts(a, b, c, d, texts);
    FormatOctets(a, b, c, d);
  }

  /** Four numbers whose decimal forms are the given texts are written as those texts joined with dots. */
  lemma DottedQuadOfTexts(a: nat, b: nat, c: nat, d: nat, texts: seq<string>)
    requires |texts| == 4
    requires Decimal(a) == texts[0] && Decimal(b) == texts[1] && Decimal(c) == texts[2] && Decimal(d) == texts[3]
    ensures DottedQuad([a, b, c, d]) == Join(texts, '.')
  {
    var o := [a, b, c, d];
    assert [Decimal(o[0]), Decimal(o[1]), Decimal(o[2]), Decimal(o[3])] == texts;
  }

  /** Distinct addresses have distinct dotted-quad forms. */
  lemma FormatAddressInjective(a: nat, b: nat)
    requires a < AddressCount && b < AddressCount
    requires FormatAddress(a) == FormatAddress(b)
    ensures a == b
  {
    AddressRoundTrip(a);
    AddressRoundTrip(b);
  }

  /** Characters that may appear in an accepted network text. */
  predicate DottedDecimalChar(c: char) {
    IsDigit(c) || c == '.' || c == '/'
  }

  /** An accepted address text consists of digits and dots only. */
  lemma ParsedAddressAlphabet(s: string)
    requires ParseAddress(s).Some?
    ensures forall k :: 0 <= k < |s| ==> IsDigit(s[k]) || s[k] == '.'
  {
    var parts := Split(s, '.');
    assert ParseOctet(parts[0]).Some? && ParseOctet(parts[1]).Some?;
    assert ParseOctet(parts[2]).Some? && ParseOctet(parts[3]).Some?;
    JoinAlphabet(parts, '.', c => IsDigit(c) || c == '.');
  }

  /** The first prefix length q >= p whose netmask is m, if any. */
  function PrefixOfNetmask(m: nat, p: nat): (r: Option<nat>)
    requires p <= MaxPrefixLen + 1
    ensures r.Some? ==> p <= r.value <= MaxPrefixLen && Netmask(r.value) == m
    ensures r.None? ==> forall q :: p <= q <= MaxPrefixLen ==> Netmask(q) != m
    decreases MaxPrefixLen + 1 - p
  {
    if p > MaxPrefixLen then None
    else if Netmask(p) == m then Some(p)
    else PrefixOfNetmask(m, p + 1)
  }

  /** The prefix length a dotted-quad mask stands for: read as a netmask, failing that as a hostmask. */
  function MaskPrefix(m: nat): (r: Option<nat>)
    requires m < AddressCount
    ensures r.Some? ==> r.value <= MaxPrefixLen
  {
    match PrefixOfNetmask(m, 0)
    case Some(p) => Some(p)
    case None => PrefixOfNetmask(AddressCount - 1 - m, 0)
  }

  /**
   * The text after the slash: a decimal prefix length (leading zeros allowed,
   * at most `MaxIntDigits` digits in all), otherwise a netmask in dotted form,
   * otherwise a hostmask in dotted form.
   */
  function ParsePrefix(s: string): (r: Option<nat>)
    ensures r.Some? ==> r.value <= MaxPrefixLen
  {
    if |s| >= 1 && AllDigits(s) then
      (if |s| <= MaxIntDigits && DigitsValue(s) <= MaxPrefixLen then Some(DigitsValue(s)) else None)
    else
      match ParseAddress(s)
      case None => None
      case Some(m) => MaskPrefix(m)
  }

  /** Why `ip_network` rejects a text; every case raises `ValueError`. */
  datatype NetworkError =
    | NotAnIpv4Network   // malformed, or an IPv6 network
    | HostBitsSet        // a valid address and prefix, but the address is not the block's base

  /** `ipaddress.ip_network(s)` restricted to IPv4, strict: the text is `address[/prefix]`. */
  function ParseNetwork(s: string): (r: Result<Network, NetworkError>)
    ensures r.Ok? ==> r.value.Valid()
  {
    var parts := Split(s, '/');
    if |parts| > 2 then Err(NotAnIpv4Network)
    else
      match ParseAddress(parts[0])
      case None => Err(NotAnIpv4Network)
      case Some(a) =>
        match (if |parts| == 1 then Some(MaxPrefixLen) else ParsePrefix(parts[1]))
        case None => Err(NotAnIpv4Network)
        case Some(p) => if a % BlockSize(p) != 0 then Err(HostBitsSet) else Ok(Network(a, p))
  }

  /**
   * A dotted-quad address followed by a decimal prefix length parses to that
   * block exactly when the prefix is at most 32 and no host bit is set.
   */
  lemma NetworkTextRoundTrip(a: nat, p: nat)
    requires a < AddressCount
    ensures ParseNetwork(FormatAddress(a) + "/" + Decimal(p)) ==
      if p > MaxPrefixLen then Err(NotAnIpv4Network)
      else if a % BlockSize(p) != 0 then Err(HostBitsSet)
      else Ok(Network(a, p))
  {
    var addr, len := FormatAddress(a), Decimal(p);
    AddressRoundTrip(a);
    ParsedAddressAlphabet(addr);
    assert '/' !in addr;
    assert '/' !in len;
    SplitJoin([addr, len], '/');
    assert FormatAddress(a) + "/" + Decimal(p) == Join([addr, len], '/');
    if p > MaxPrefixLen {
      SplitSepFree(len, '.');
    }
  }

  lemma {:induction false} Pow2Strict(j: nat, k: nat)
    requires j < k
    ensures Pow2(j) < Pow2(k)
  {
    Pow2Monotone(j, k - 1);
  }

  /** Distinct prefix lengths have distinct netmasks. */
  lemma NetmaskInjective(p: nat, q: nat)
    requires p <= MaxPrefixLen && q <= MaxPrefixLen && Netmask(p) == Netmask(q)
    ensures p == q
  {
    if p < q {
      Pow2Strict(MaxPrefixLen - q, MaxPrefixLen - p);
    } else if q < p {
      Pow2Strict(MaxPrefixLen - p, MaxPrefixLen - q);
    }
  }

  /** The netmask of a /p block is recognised as the netmask of exactly that length. */
  lemma NetmaskPrefix(p: nat)
    requires p <= MaxPrefixLen
    ensures PrefixOfNetmask(Netmask(p), 0) == Some(p)
  {
    var r := PrefixOfNetmask(Netmask(p), 0);
    NetmaskInjective(r.value, p);
  }

  /** The hostmask of a /p block: 32 - p one bits. */
  function Hostmask(p: nat): (r: nat)
    requires p <= MaxPrefixLen
    ensures r < AddressCount && AddressCount - 1 - r == Netmask(p)
  {
    BlockFits(0, p);
    BlockSize(p) - 1
  }

  /**
   * For 0 < p < 32 the hostmask is no netmask: it is not 0 and lies below
   * 2^31, while every other netmask has its top bit set.
   */
  lemma HostmaskIsNoNetmask(p: nat)
    requires 0 < p < MaxPrefixLen
    ensures PrefixOfNetmask(Hostmask(p), 0) == None
  {
    var h := Hostmask(p);
    Pow2ThirtyTwo();
    assert h >= 1 by {
      Pow2Monotone(1, MaxPrefixLen - p);
    }
    assert h < Pow2(31) by {
      Pow2Monotone(MaxPrefixLen - p, 31);
    }
    forall q | 0 <= q <= MaxPrefixLen
      ensures Netmask(q) != h
    {
      if q >= 1 {
        Pow2Monotone(MaxPrefixLen - q, 31);
      }
    }
  }

  /** A dotted-quad text contains a dot, so it is never read as a decimal prefix length. */
  lemma FormatAddressNotDigits(a: nat)
    requires a < AddressCount
    ensures !AllDigits(FormatAddress(a))
  {
    var o := Octets(a);
    var p0 := Decimal(o[0]);
    Join4(p0, Decimal(o[1]), Decimal(o[2]), Decimal(o[3]), '.');
    assert FormatAddress(a)[|p0|] == '.';
  }

  /** A prefix written in dotted-quad form is read as a netmask, failing that as a hostmask. */
  lemma MaskText(m: nat)
    requires m < AddressCount
    ensures ParsePrefix(FormatAddress(m)) == MaskPrefix(m)
  {
    FormatAddressNotDigits(m);
    AddressRoundTrip(m);
    MaskOfAddressText(FormatAddress(m), m);
  }

  lemma MaskOfAddressText(s: string, m: nat)
    requires ParseAddress(s) == Some(m) && !AllDigits(s)
    ensures ParsePrefix(s) == MaskPrefix(m)
  {
  }

  /** A prefix written as a netmask in dotted-quad form gives that prefix length. */
  lemma NetmaskText(p: nat)
    requires p <= MaxPrefixLen
    ensures Netmask(p) < AddressCount
    ensures ParsePrefix(FormatAddress(Netmask(p))) == Some(p)
  {
    assert Hostmask(p) < AddressCount;
    assert MaskPrefix(Netmask(p)) == Some(p) by {
      NetmaskPrefix(p);
    }
    MaskText(Netmask(p));
  }

  /**
   * A prefix written as a hostmask in dotted-quad form gives that prefix
   * length, for 0 < p < 32 (the hostmasks of /0 and /32 are the netmasks of
   * /32 and /0).
   */
  lemma HostmaskText(p: nat)
    requires 0 < p < MaxPrefixLen
    ensures ParsePrefix(FormatAddress(Hostmask(p))) == Some(p)
  {
    HostmaskPrefix(p);
    MaskText(Hostmask(p));
  }

  /** Read as a mask, the hostmask of a /p block (0 < p < 32) stands for p. */
  lemma HostmaskPrefix(p: nat)
    requires 0 < p < MaxPrefixLen
    ensures MaskPrefix(Hostmask(p)) == Some(p)
  {
    HostmaskIsNoNetmask(p);
    HostmaskComplement(p);
    ComplementMaskPrefix(Hostmask(p), p);
  }

  /** The complement of the hostmask of a /p block is recognised as the netmask of p. */
  lemma HostmaskComplement(p: nat)
    requires p <= MaxPrefixLen
    ensures PrefixOfNetmask(AddressCount - 1 - Hostmask(p), 0) == Some(p)
  {
    NetmaskPrefix(p);
  }

  /** A mask that is no netmask but whose complement is the netmask of p stands for p. */
  lemma ComplementMaskPrefix(h: nat, p: nat)
    requires h < AddressCount
    requires PrefixOfNetmask(h, 0) == None && PrefixOfNetmask(AddressCount - 1 - h, 0) == Some(p)
    ensures MaskPrefix(h) == Some(p)
  {
  }

  /** `k` zero digits. */
  function Zeros(k: nat): (r: string)
    ensures |r| == k && forall i :: 0 <= i < k ==> r[i] == '0'
  {
    if k == 0 then "" else "0" + Zeros(k - 1)
  }

  /** A leading zero does not change the value of a digit string. */
  lemma {:induction false} LeadingZeroValue(s: string)
    requires AllDigits(s)
    ensures AllDigits("0" + s) && DigitsValue("0" + s) == DigitsValue(s)
  {
    if s != [] {
      var init := s[..|s| - 1];
      LeadingZeroValue(init);
      assert ("0" + s)[..|s|] == "0" + init;
    }
  }

  /** Leading zeros do not change the value of a digit string. */
  lemma {:induction false} ZerosValue(k: nat, s: string)
    requires AllDigits(s)
    ensures AllDigits(Zeros(k) + s) && DigitsValue(Zeros(k) + s) == DigitsValue(s)
  {
    if k > 0 {
      ZerosValue(k - 1, s);
      LeadingZeroValue(Zeros(k - 1) + s);
      assert Zeros(k) + s == "0" + (Zeros(k - 1) + s);
    } else {
      assert Zeros(k) + s == s;
    }
  }

  /**
   * A decimal prefix length may carry leading zeros; above 32, or with more
   * than `MaxIntDigits` digits in all, it is rejected.
   */
  lemma PaddedPrefixText(k: nat, p: nat)
    ensures ParsePrefix(Zeros(k) + Decimal(p)) ==
      if p <= MaxPrefixLen && k + |Decimal(p)| <= MaxIntDigits then Some(p) else None
  {
    ZerosValue(k, Decimal(p));
  }

  /**
   * An address, a slash and any prefix text without a slash: the block is
   * the address under the prefix the text denotes; a prefix text that is not
   * recognised is a malformed network, and an address that is not the base
   * of its block has host bits set.
   */
  lemma NetworkPrefixText(a: nat, t: string)
    requires a < AddressCount && '/' !in t
    ensures ParseNetwork(FormatAddress(a) + "/" + t) ==
      match ParsePrefix(t)
      case None => Err(NotAnIpv4Network)
      case Some(p) => if a % BlockSize(p) != 0 then Err(HostBitsSet) else Ok(Network(a, p))
  {
    var addr := FormatAddress(a);
    AddressRoundTrip(a);
    ParsedAddressAlphabet(addr);
    assert '/' !in addr;
    SplitJoin([addr, t], '/');
    assert addr + "/" + t == Join([addr, t], '/');
  }

  /** Without a slash the text is an address, read as a /32 block. */
  lemma NetworkAddressText(a: nat)
    requires a < AddressCount
    ensures ParseNetwork(FormatAddress(a)) == Ok(Network(a, MaxPrefixLen))
  {
    var addr := FormatAddress(a);
    AddressRoundTrip(a);
    ParsedAddressAlphabet(addr);
    assert '/' !in addr;
    SplitSepFree(addr, '/');
    assert BlockSize(MaxPrefixLen) == 1;
  }

  /** An address and a netmask denote the block of that prefix length, or host bits are set. */
  lemma NetworkNetmaskText(a: nat, p: nat)
    requires a < AddressCount && p <= MaxPrefixLen
    ensures Netmask(p) < AddressCount
    ensures ParseNetwork(FormatAddress(a) + "/" + FormatAddress(Netmask(p))) ==
      if a % BlockSize(p) != 0 then Err(HostBitsSet) else Ok(Network(a, p))
  {
    NetmaskText(p);
    var t := FormatAddress(Netmask(p));
    assert '/' !in t by {
      AddressRoundTrip(Netmask(p));
      ParsedAddressAlphabet(t);
    }
    NetworkPrefixText(a, t);
  }

  /** An address and a hostmask denote the block of that prefix length, or host bits are set. */
  lemma NetworkHostmaskText(a: nat, p: nat)
    requires a < AddressCount && 0 < p < MaxPrefixLen
    ensures ParseNetwork(FormatAddress(a) + "/" + FormatAddress(Hostmask(p))) ==
      if a % BlockSize(p) != 0 then Err(HostBitsSet) else Ok(Network(a, p))
  {
    HostmaskText(p);
    var t := FormatAddress(Hostmask(p));
    assert '/' !in t by {
      AddressRoundTrip(Hostmask(p));
      ParsedAddressAlphabet(t);
    }
    NetworkPrefixText(a, t);
  }

  /**
   * An address and a zero-padded prefix length denote the same block as
   * without the padding, unless the padding takes the digits past `MaxIntDigits`.
   */
  lemma NetworkPaddedText(a: nat, k: nat, p: nat)
    requires a < AddressCount
    ensures ParseNetwork(FormatAddress(a) + "/" + Zeros(k) + Decimal(p)) ==
      if p > MaxPrefixLen || k + |Decimal(p)| > MaxIntDigits then Err(NotAnIpv4Network)
      else if a % BlockSize(p) != 0 then Err(HostBitsSet)
      else Ok(Network(a, p))
  {
    var t := Zeros(k) + Decimal(p);
    PaddedPrefixText(k, p);
    ZerosValue(k, Decimal(p));
    assert '/' !in t by {
      assert forall i :: 0 <= i < |t| ==> IsDigit(t[i]);
    }
    NetworkPrefixText(a, t);
    assert FormatAddress(a) + "/" + Zeros(k) + Decimal(p) == FormatAddress(a) + "/" + t;
  }

  /** A text that is not rejected as malformed consists of digits, dots and slashes only. */
  lemma ParsedNetworkAlphabet(s: string)
    requires ParseNetwork(s) != Err(NotAnIpv4Network)
    ensures forall k :: 0 <= k < |s| ==> DottedDecimalChar(s[k])
  {
    var parts := Split(s, '/');
    ParsedAddressAlphabet(parts[0]);
    if |parts| == 2 {
      var t := parts[1];
      if !(|t| >= 1 && AllDigits(t)) {
        ParsedAddressAlphabet(t);
      }
    }
    JoinAlphabet(parts, '/', DottedDecimalChar);
  }

  /** Any text with a colon, which every IPv6 network text has, is rejected. */
  lemma ColonTextRejected(s: string)
    requires ':' in s
    ensures ParseNetwork(s) == Err(NotAnIpv4Network)
  {
    if ParseNetwork(s) != Err(NotAnIpv4Network) {
      ParsedNetworkAlphabet(s);
      assert false;
    }
  }

  // ---------------------------------------------------------------------
  // Hosts
  // ---------------------------------------------------------------------

  /** `range(lo, hi)` */
  function Range(lo: nat, hi: nat): (r: seq<nat>)
    ensures |r| == if lo <= hi then hi - lo else 0
    ensures forall i :: 0 <= i < |r| ==> r[i] == lo + i
    decreases hi - lo
  {
    if lo >= hi then [] else [lo] + Range(lo + 1, hi)
  }

  /**
   * `IPv4Network.hosts()`: the usable host addresses in ascending order. A /32
   * block has its single address; a /31 block both its addresses (RFC 3021);
   * any other block every address but the first (network) and last (broadcast).
   */
  function Hosts(n: Network): (r: seq<nat>)
    requires n.Valid()
    ensures forall i, j :: 0 <= i < j < |r| ==> r[i] < r[j]
    ensures forall i :: 0 <= i < |r| ==> n.Contains(r[i]) && r[i] < AddressCount
  {
    if n.prefix == MaxPrefixLen then [n.base]
    else if n.prefix == MaxPrefixLen - 1 then Range(n.base, n.Broadcast() + 1)
    else Range(n.base + 1, n.Broadcast())
  }

  /** How many hosts a block has. */
  lemma HostsCount(n: Network)
    requires n.Valid()
    ensures |Hosts(n)| ==
      if n.prefix <= 30 then BlockSize(n.prefix) - 2
      else if n.prefix == 31 then 2
      else 1
  {
    if n.prefix <= 30 {
      Pow2Monotone(2, MaxPrefixLen - n.prefix);
    }
  }

  /** Which addresses are hosts: for prefixes up to 30, exactly those strictly inside the block. */
  lemma HostsMembership(n: Network, a: nat)
    requires n.Valid()
    ensures a in Hosts(n) <==>
      if n.prefix <= 30 then n.base < a < n.Broadcast() else n.Contains(a)
  {
    var r := Hosts(n);
    if n.prefix <= 30 {
      Pow2Monotone(2, MaxPrefixLen - n.prefix);
      if n.base < a < n.Broadcast() {
        assert r[a - n.base - 1] == a;
      }
    } else if n.prefix == 31 && n.Contains(a) {
      assert r[a - n.base] == a;
    }
  }

  /** A /30 block at base b has exactly the two hosts b+1 and b+2; its broadcast address is b+3. */
  lemma Slash30Hosts(n: Network)
    requires n.Valid() && n.prefix == 30
    ensures n.Broadcast() == n.base + 3
    ensures Hosts(n) == [n.base + 1, n.base + 2]
  {
  }

  /** A /31 block (RFC 3021) has both of its addresses as hosts. */
  lemma Slash31Hosts(n: Network)
    requires n.Valid() && n.prefix == 31
    ensures n.Broadcast() == n.base + 1
    ensures Hosts(n) == [n.base, n.base + 1]
  {
  }
}
