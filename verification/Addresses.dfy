/** Points and the labels that explain them. */
module Scoring {
  datatype Scored = Scored(points: int, labels: seq<string>)

  const NOTHING := Scored(0, [])

  function Plus(a: Scored, b: Scored): Scored { Scored(a.points + b.points, a.labels + b.labels) }

  function When(condition: bool, points: int, labels: seq<string>): Scored {
    if condition then Scored(points, labels) else NOTHING
  }
}

/** What an address alone says (internal/service/risk/engine.go, proxy_detector.go). Parsing is abstract. */
module Addresses {
  import opened Prelude
  import opened Scoring

  /** A 32-bit address, or a wider one that is or is not in a reserved range. */
  datatype Address = V4(bits: nat) | V6(reserved: bool)

  /** Addresses are written byte by byte in hexadecimal; a /n range holds 2^(32-n) of them. */
  predicate In(a: Address, base: nat, size: nat) { a.V4? && base <= a.bits < base + size }

  /** 35.192/11, 34.64/10, 13.64/11, 52.0/11, 54.64/11, 18.128/9, 104.196/14, 198.51.100/24. */
  predicate Datacenter(a: Address) {
    || In(a, 0x23_C0_00_00, 0x200000) || In(a, 0x22_40_00_00, 0x400000)
    || In(a, 0x0D_40_00_00, 0x200000) || In(a, 0x34_00_00_00, 0x200000)
    || In(a, 0x36_40_00_00, 0x200000) || In(a, 0x12_80_00_00, 0x800000)
    || In(a, 0x68_C4_00_00, 0x40000) || In(a, 0xC6_33_64_00, 0x100)
  }

  /** 198.18/15, 100.64/10. */
  predicate Vpn(a: Address) { In(a, 0xC6_12_00_00, 0x20000) || In(a, 0x64_40_00_00, 0x400000) }

  /**
    159.89, 167.99, 139.59, 128.199, 45.55, 157.245, 5.101, 51.77 and 164.90, each /16;
    95.216/15, 65.108/15, 141.94/15.
   */
  predicate ExtraDatacenter(a: Address) {
    || In(a, 0x9F_59_00_00, 0x10000) || In(a, 0xA7_63_00_00, 0x10000)
    || In(a, 0x8B_3B_00_00, 0x10000) || In(a, 0x80_C7_00_00, 0x10000)
    || In(a, 0x2D_37_00_00, 0x10000) || In(a, 0x9D_F5_00_00, 0x10000)
    || In(a, 0x05_65_00_00, 0x10000) || In(a, 0x5F_D8_00_00, 0x20000)
    || In(a, 0x41_6C_00_00, 0x20000) || In(a, 0x8D_5E_00_00, 0x20000)
    || In(a, 0x33_4D_00_00, 0x10000) || In(a, 0xA4_5A_00_00, 0x10000)
  }

  /** Loopback, private and link-local ranges: 127/8, 10/8, 172.16/12, 192.168/16, 169.254/16. */
  predicate Reserved(a: Address) {
    || (a.V6? && a.reserved)
    || In(a, 0x7F_00_00_00, 0x1000000) || In(a, 0x0A_00_00_00, 0x1000000)
    || In(a, 0xAC_10_00_00, 0x100000) || In(a, 0xC0_A8_00_00, 0x10000)
    || In(a, 0xA9_FE_00_00, 0x10000)
  }

  predicate BadIp(ip: string) { ip == "192.0.2.1" || ip == "198.51.100.50" || ip == "203.0.113.99" }

  predicate TorExit(ip: string) {
    ip == "185.220.100.252" || ip == "185.220.100.253" || ip == "185.220.101.1" || ip == "185.220.101.2"
  }

  type Parser = string -> Option<Address>

  /** Parsing is arbitrary, except on the literals the engine lists by name. */
  ghost predicate ParsesLiterals(parse: Parser) {
    && parse("192.0.2.1") == Some(V4(0xC0_00_02_01)) && parse("198.51.100.50") == Some(V4(0xC6_33_64_32))
    && parse("203.0.113.99") == Some(V4(0xCB_00_71_63))
    && parse("185.220.100.252") == Some(V4(0xB9_DC_64_FC))
    && parse("185.220.100.253") == Some(V4(0xB9_DC_64_FD))
    && parse("185.220.101.1") == Some(V4(0xB9_DC_65_01))
    && parse("185.220.101.2") == Some(V4(0xB9_DC_65_02))
  }

  function IpPoints(bad: bool, reserved: bool, datacenter: bool): Scored {
    Plus(Plus(When(bad, 30, ["blacklisted_ip"]), When(reserved, 2, [])), When(datacenter, 15, ["datacenter_ip"]))
  }

  function ProxyPoints(tor: bool, vpn: bool, extra: bool): Scored {
    Plus(Plus(When(tor, 25, ["tor_exit_node"]), When(vpn, 15, ["vpn_range"])),
         When(extra, 12, ["datacenter_ip_extended"]))
  }

  function IpScore(parse: Parser, ip: string): Scored {
    if ip == "" then Scored(10, ["missing_ip"])
    else if parse(ip).None? then Scored(15, ["invalid_ip"])
    else
      var a := parse(ip).value;
      IpPoints(BadIp(ip), Reserved(a), Datacenter(a))
  }

  function ProxyScore(parse: Parser, ip: string): Scored {
    if parse(ip).None? then NOTHING
    else
      var a := parse(ip).value;
      ProxyPoints(TorExit(ip), Vpn(a), ExtraDatacenter(a))
  }

  /** At most one of the ranges holds an address, and none holds a Tor exit's. */
  ghost predicate Apart(reserved: bool, datacenter: bool, vpn: bool, extra: bool) {
    && (reserved ==> !datacenter && !vpn && !extra) && (datacenter ==> !vpn && !extra) && (vpn ==> !extra)
  }

  lemma RangesApart(a: Address)
    ensures Apart(Reserved(a), Datacenter(a), Vpn(a), ExtraDatacenter(a))
  {}

  // ---- The ranges by the bytes of an address ------------------------------------------

  /** An address by its four bytes. */
  function Quad(w: nat, x: nat, y: nat, z: nat): Address { V4(w * 0x1000000 + x * 0x10000 + y * 0x100 + z) }

  lemma DatacenterBytes(w: nat, x: nat, y: nat, z: nat)
    requires w < 256 && x < 256 && y < 256 && z < 256
    ensures Datacenter(Quad(w, x, y, z))
       <==> ((w == 35 && 192 <= x <= 223) || (w == 34 && 64 <= x <= 127) || (w == 13 && 64 <= x <= 95)
             || (w == 52 && x <= 31) || (w == 54 && 64 <= x <= 95) || (w == 18 && x >= 128)
             || (w == 104 && 196 <= x <= 199) || (w == 198 && x == 51 && y == 100))
  {}

  lemma VpnBytes(w: nat, x: nat, y: nat, z: nat)
    requires w < 256 && x < 256 && y < 256 && z < 256
    ensures Vpn(Quad(w, x, y, z)) <==> (w == 198 && 18 <= x <= 19) || (w == 100 && 64 <= x <= 127)
  {}

  lemma ReservedBytes(w: nat, x: nat, y: nat, z: nat)
    requires w < 256 && x < 256 && y < 256 && z < 256
    ensures Reserved(Quad(w, x, y, z))
       <==> (w == 127 || w == 10 || (w == 172 && 16 <= x <= 31) || (w == 192 && x == 168) || (w == 169 && x == 254))
  {}

  lemma WiderAddresses(reserved: bool)
    ensures (Reserved(V6(reserved)) <==> reserved)
    ensures !Datacenter(V6(reserved)) && !Vpn(V6(reserved)) && !ExtraDatacenter(V6(reserved))
  {}

  /** The addresses listed by name: three bad ones and four Tor exits. */
  lemma ListedByName(ip: string)
    ensures BadIp(ip) <==> ip in {"192.0.2.1", "198.51.100.50", "203.0.113.99"}
    ensures TorExit(ip) <==> ip in {"185.220.100.252", "185.220.100.253", "185.220.101.1", "185.220.101.2"}
  {}

  lemma ExtraDatacenterBytes(w: nat, x: nat, y: nat, z: nat)
    requires w < 256 && x < 256 && y < 256 && z < 256
    ensures ExtraDatacenter(Quad(w, x, y, z))
       <==> ((w == 159 && x == 89) || (w == 167 && x == 99) || (w == 139 && x == 59) || (w == 128 && x == 199)
             || (w == 45 && x == 55) || (w == 157 && x == 245) || (w == 5 && x == 101) || (w == 51 && x == 77)
             || (w == 164 && x == 90) || (w == 95 && 216 <= x <= 217) || (w == 65 && 108 <= x <= 109)
             || (w == 141 && 94 <= x <= 95))
  {}

  // ---- An address alone ---------------------------------------------------------------

  predicate TorNetwork(a: Address) { In(a, 0xB9_DC_00_00, 0x10000) }

  lemma TorNetworkApart(a: Address)
    requires TorNetwork(a)
    ensures !Reserved(a) && !Datacenter(a) && !Vpn(a) && !ExtraDatacenter(a)
  {}

  lemma BadIpsKnown(parse: Parser, ip: string)
    requires ParsesLiterals(parse) && BadIp(ip)
    ensures parse(ip).Some? && !TorNetwork(parse(ip).value)
  {}

  lemma TorExitsKnown(parse: Parser, ip: string)
    requires ParsesLiterals(parse) && TorExit(ip)
    ensures parse(ip).Some? && TorNetwork(parse(ip).value)
  {}

  lemma AtMost45(bad: bool, reserved: bool, datacenter: bool, tor: bool, vpn: bool, extra: bool)
    requires Apart(reserved, datacenter, vpn, extra)
    requires tor ==> !bad && !reserved && !datacenter && !vpn && !extra
    ensures IpPoints(bad, reserved, datacenter).points + ProxyPoints(tor, vpn, extra).points <= 45
  {
    assert IpPoints(bad, reserved, datacenter).points
        == (if bad then 30 else 0) + (if reserved then 2 else 0) + (if datacenter then 15 else 0);
    assert ProxyPoints(tor, vpn, extra).points
        == (if tor then 25 else 0) + (if vpn then 15 else 0) + (if extra then 12 else 0);
  }

  function AddressPoints(parse: Parser, ip: string): int {
    IpScore(parse, ip).points + ProxyScore(parse, ip).points
  }

  lemma ParsedAlone(parse: Parser, ip: string, a: Address)
    requires ParsesLiterals(parse) && ip != "" && parse(ip) == Some(a)
    ensures AddressPoints(parse, ip) <= 45
  {
    RangesApart(a);
    if TorExit(ip) {
      TorExitsKnown(parse, ip);
      TorNetworkApart(a);
      assert !BadIp(ip) by { if BadIp(ip) { BadIpsKnown(parse, ip); } }
    }
    AtMost45(BadIp(ip), Reserved(a), Datacenter(a), TorExit(ip), Vpn(a), ExtraDatacenter(a));
  }

  /** An address alone brings at most 45 points. */
  lemma AddressAlone(parse: Parser, ip: string)
    requires ParsesLiterals(parse) && parse("") == None
    ensures AddressPoints(parse, ip) <= 45
  {
    if ip != "" && parse(ip).Some? {
      ParsedAlone(parse, ip, parse(ip).value);
    }
  }

  /** One of the listed addresses brings them all, in the IP layer. */
  lemma AddressReaches45(parse: Parser)
    requires ParsesLiterals(parse)
    ensures IpScore(parse, "198.51.100.50").points == 45 == AddressPoints(parse, "198.51.100.50")
  {
    var a := V4(0xC6_33_64_32);
    assert Datacenter(a);
    RangesApart(a);
    BadIpsKnown(parse, "198.51.100.50");
    assert !TorExit("198.51.100.50") by {
      if TorExit("198.51.100.50") { TorExitsKnown(parse, "198.51.100.50"); }
    }
    assert IpScore(parse, "198.51.100.50") == IpPoints(true, false, true);
    assert ProxyScore(parse, "198.51.100.50") == ProxyPoints(false, false, false);
  }

  /** What each fact about an address adds, with its label. */
  lemma AddressFactsAdd(parse: Parser, ip: string)
    ensures ip == "" ==> IpScore(parse, ip) == Scored(10, ["missing_ip"])
    ensures ip != "" && parse(ip).None? ==> IpScore(parse, ip) == Scored(15, ["invalid_ip"])
    ensures parse(ip).None? ==> ProxyScore(parse, ip) == Scored(0, [])
    ensures ip != "" && parse(ip).Some? ==>
              var a := parse(ip).value;
              && IpScore(parse, ip).points
                   == (if BadIp(ip) then 30 else 0) + (if Reserved(a) then 2 else 0) + (if Datacenter(a) then 15 else 0)
              && IpScore(parse, ip).labels
                   == (if BadIp(ip) then ["blacklisted_ip"] else []) + (if Datacenter(a) then ["datacenter_ip"] else [])
  {}

  /** The same for the proxy layer. */
  lemma ProxyFactsAdd(parse: Parser, ip: string)
    requires parse(ip).Some?
    ensures var a := parse(ip).value;
            && ProxyScore(parse, ip).points
                 == (if TorExit(ip) then 25 else 0) + (if Vpn(a) then 15 else 0)
                    + (if ExtraDatacenter(a) then 12 else 0)
            && ProxyScore(parse, ip).labels
                 == (if TorExit(ip) then ["tor_exit_node"] else []) + (if Vpn(a) then ["vpn_range"] else [])
                    + (if ExtraDatacenter(a) then ["datacenter_ip_extended"] else [])
  {}
}
