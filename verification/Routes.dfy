/** Routes pushed by the server and filtered by the client. A route is a CIDR
    text that has been parsed: `V4` for dotted IPv4, with the address as it was
    written, `Other` for everything net.ParseCIDR refuses or reads as IPv6. */
module Routes {
  import opened Bytes
  import opened Dotted

  datatype Cidr = V4(ip: Ip4, ones: nat) | Other(text: string)

  // ---------------------------------------------------------------- masks

  // 2 to the n, for the bits of a byte.
  function Weight(n: nat): (w: nat)
    requires n <= 8
    ensures w > 0
  {
    match n
    case 0 => 1 case 1 => 2 case 2 => 4 case 3 => 8 case 4 => 16
    case 5 => 32 case 6 => 64 case 7 => 128 case 8 => 256
  }

  // The first n bits of a byte, as a number.
  function TopBits(b: Byte, n: nat): nat
    requires n <= 8
  {
    b as int / Weight(8 - n)
  }

  // A byte and-ed with a mask of n leading ones.
  function Keep(b: Byte, n: nat): int
    requires n <= 8
  {
    TopBits(b, n) * Weight(8 - n)
  }

  // How many bits of the i-th byte a prefix of `ones` bits keeps.
  function BitsKept(ones: nat, i: nat): (n: nat)
    ensures n <= 8
  {
    if ones <= 8 * i then 0 else if ones >= 8 * i + 8 then 8 else ones - 8 * i
  }

  function ByteAt(ip: Ip4, i: nat): Byte
    requires i < 4
  {
    match i case 0 => ip.a case 1 => ip.b case 2 => ip.c case 3 => ip.d
  }

  // IPNet.Contains: equal under the mask, byte by byte.
  predicate Contains(net: Ip4, ones: nat, ip: Ip4) {
    forall i :: 0 <= i < 4 ==> Keep(ByteAt(net, i), BitsKept(ones, i)) == Keep(ByteAt(ip, i), BitsKept(ones, i))
  }

  predicate Bit(b: Byte, j: nat)
    requires j < 8
  {
    b as int / Weight(7 - j) % 2 == 1
  }

  // Bit j of an address, the most significant one first.
  predicate AddressBit(ip: Ip4, j: nat)
    requires j < 32
  {
    Bit(ByteAt(ip, j / 8), j % 8)
  }

  // The meaning of a CIDR: all addresses that agree with it in its first bits.
  ghost predicate Covers(net: Ip4, ones: nat, ip: Ip4)
    requires ones <= 32
  {
    forall j: nat :: j < ones ==> AddressBit(net, j) == AddressBit(ip, j)
  }

  lemma QuotientHalves(v: nat, w: nat)
    requires w in {1, 2, 4, 8, 16, 32, 64, 128}
    ensures v / w == 2 * (v / (2 * w)) + v / w % 2
  {
  }

  lemma TopBitsStep(b: Byte, n: nat)
    requires n < 8
    ensures TopBits(b, n + 1) == 2 * TopBits(b, n) + if Bit(b, n) then 1 else 0
  {
    QuotientHalves(b, Weight(7 - n));
    assert Weight(8 - n) == 2 * Weight(7 - n);
  }

  lemma {:induction false} TopBitsAreBits(x: Byte, y: Byte, n: nat)
    requires n <= 8
    ensures TopBits(x, n) == TopBits(y, n) <==> forall j: nat :: j < n ==> Bit(x, j) == Bit(y, j)
  {
    if n > 0 {
      TopBitsAreBits(x, y, n - 1);
      TopBitsStep(x, n - 1);
      TopBitsStep(y, n - 1);
    }
  }

  lemma KeepIsTopBits(x: Byte, y: Byte, n: nat)
    requires n <= 8
    ensures Keep(x, n) == Keep(y, n) <==> TopBits(x, n) == TopBits(y, n)
  {
    match n case 0 => case 1 => case 2 => case 3 => case 4 => case 5 => case 6 => case 7 => case 8 =>
  }

  lemma KeepIsBits(x: Byte, y: Byte, n: nat)
    requires n <= 8
    ensures Keep(x, n) == Keep(y, n) <==> forall j: nat :: j < n ==> Bit(x, j) == Bit(y, j)
  {
    KeepIsTopBits(x, y, n);
    TopBitsAreBits(x, y, n);
  }

  // The byte-wise test decides the meaning, for every prefix length.
  lemma ContainsIsCovers(net: Ip4, ones: nat, ip: Ip4)
    requires ones <= 32
    ensures Contains(net, ones, ip) <==> Covers(net, ones, ip)
  {
    hide Keep, Bit, ByteAt;
    forall i | 0 <= i < 4
      ensures Keep(ByteAt(net, i), BitsKept(ones, i)) == Keep(ByteAt(ip, i), BitsKept(ones, i)) <==>
              forall j: nat :: j < BitsKept(ones, i) ==> Bit(ByteAt(net, i), j) == Bit(ByteAt(ip, i), j)
    {
      KeepIsBits(ByteAt(net, i), ByteAt(ip, i), BitsKept(ones, i));
    }
    if Contains(net, ones, ip) {
      forall j: nat | j < ones ensures AddressBit(net, j) == AddressBit(ip, j) {
        assert j % 8 < BitsKept(ones, j / 8);
      }
    }
    if Covers(net, ones, ip) {
      forall i, j: nat | 0 <= i < 4 && j < BitsKept(ones, i) ensures Bit(ByteAt(net, i), j) == Bit(ByteAt(ip, i), j) {
        assert AddressBit(net, 8 * i + j) == AddressBit(ip, 8 * i + j);
      }
    }
  }

  // ---------------------------------------------------------------- the client's filter

  // net.ParseCIDR only yields prefixes of at most 32 bits.
  predicate Parsed(r: Cidr) {
    r.V4? ==> r.ones <= 32
  }

  predicate Safe(r: Cidr, srv: Option<Ip4>) {
    r.V4? && r.ones >= 8 && !(srv.Some? && Contains(r.ip, r.ones, srv.value))
  }

  function Filter(routes: seq<Cidr>, srv: Option<Ip4>): seq<Cidr> {
    if routes == [] then []
    else Filter(routes[..|routes| - 1], srv) +
         (if Safe(routes[|routes| - 1], srv) then [routes[|routes| - 1]] else [])
  }

  method SafeRoutes(routes: seq<Cidr>, srv: Option<Ip4>) returns (ok: seq<Cidr>)
    ensures ok == Filter(routes, srv)
  {
    ok := [];
    for i := 0 to |routes|
      invariant ok == Filter(routes[..i], srv)
    {
      var r := routes[i];
      assert routes[..i + 1][..i] == routes[..i];
      if r.Other? { continue; }
      if r.ones < 8 { continue; }
      if srv.Some? && Contains(r.ip, r.ones, srv.value) { continue; }
      ok := ok + [r];
    }
    assert routes[..|routes|] == routes;
  }

  // The positions a filter keeps, in order.
  ghost predicate Picks(from: seq<Cidr>, to: seq<Cidr>, at: seq<nat>) {
    && |at| == |to|
    && (forall i :: 0 <= i < |at| ==> at[i] < |from| && from[at[i]] == to[i])
    && (forall i, j :: 0 <= i < j < |at| ==> at[i] < at[j])
  }

  // What is kept is kept in order, once per occurrence, and is all that is safe.
  lemma {:induction false} FilterKeepsOrder(routes: seq<Cidr>, srv: Option<Ip4>) returns (at: seq<nat>)
    ensures Picks(routes, Filter(routes, srv), at)
    ensures forall k: nat :: k < |routes| ==> (k in at <==> Safe(routes[k], srv))
  {
    at := [];
    if routes != [] {
      var n: nat := |routes| - 1;
      var before := FilterKeepsOrder(routes[..n], srv);
      at := before + if Safe(routes[n], srv) then [n] else [];
      assert Filter(routes, srv) == Filter(routes[..n], srv) + if Safe(routes[n], srv) then [routes[n]] else [];
      hide Filter, Safe;
      assert forall k :: 0 <= k < n ==> routes[..n][k] == routes[k];
      assert forall k: nat :: k < |routes| ==> (k in at <==> if k < n then k in before else Safe(routes[n], srv));
    }
  }

  // No route that is kept is broader than /8 or contains the server's address.
  lemma {:induction false} KeptRoutesAreSafe(routes: seq<Cidr>, srv: Option<Ip4>, r: Cidr)
    requires r in Filter(routes, srv) && Parsed(r)
    ensures r in routes && r.V4? && 8 <= r.ones <= 32
    ensures srv.Some? ==> !Covers(r.ip, r.ones, srv.value)
  {
    if r in Filter(routes[..|routes| - 1], srv) {
      KeptRoutesAreSafe(routes[..|routes| - 1], srv, r);
    } else {
      assert r == routes[|routes| - 1];
      if srv.Some? { ContainsIsCovers(r.ip, r.ones, srv.value); }
    }
  }

  // A route is kept if and only if it is IPv4, at least /8 and does not cover the
  // server.
  lemma KeptExactly(routes: seq<Cidr>, srv: Option<Ip4>, r: Cidr)
    requires Parsed(r)
    ensures r in Filter(routes, srv) <==>
      r in routes && r.V4? && r.ones >= 8 && !(srv.Some? && Covers(r.ip, r.ones, srv.value))
  {
    if r.V4? && srv.Some? { ContainsIsCovers(r.ip, r.ones, srv.value); }
    hide Covers, Contains;
    SafeAreKept(routes, srv, r);
  }

  lemma {:induction false} SafeAreKept(routes: seq<Cidr>, srv: Option<Ip4>, r: Cidr)
    ensures r in Filter(routes, srv) <==> r in routes && Safe(r, srv)
  {
    if routes != [] {
      SafeAreKept(routes[..|routes| - 1], srv, r);
      assert r in routes <==> r in routes[..|routes| - 1] || r == routes[|routes| - 1];
    }
  }

  // Filtering what was filtered changes nothing.
  lemma {:induction false} FilterIsIdempotent(routes: seq<Cidr>, srv: Option<Ip4>)
    ensures Filter(Filter(routes, srv), srv) == Filter(routes, srv)
  {
    if routes != [] {
      var kept, last := Filter(routes[..|routes| - 1], srv), routes[|routes| - 1];
      FilterIsIdempotent(routes[..|routes| - 1], srv);
      assert (kept + [last])[..|kept|] == kept;
      assert kept + [] == kept;
    }
  }

  // ---------------------------------------------------------------- applying a push

  datatype Dns = Dns(server: Cidr, domains: seq<string>)

  function ValidOnes(domains: seq<string>, valid: string -> bool): (kept: seq<string>)
    ensures forall d :: d in kept <==> d in domains && valid(d)
    ensures (forall d <- domains :: valid(d)) ==> kept == domains
  {
    if domains == [] then []
    else
      assert forall d :: d in domains <==> d in domains[..|domains| - 1] || d == domains[|domains| - 1];
      ValidOnes(domains[..|domains| - 1], valid) +
        (if valid(domains[|domains| - 1]) then [domains[|domains| - 1]] else [])
  }

  // The loop over the pushed domain names.
  method KeepValid(all: seq<string>, valid: string -> bool) returns (domains: seq<string>)
    ensures domains == ValidOnes(all, valid)
  {
    domains := [];
    for i := 0 to |all|
      invariant domains == ValidOnes(all[..i], valid)
    {
      assert all[..i + 1][..i] == all[..i];
      if valid(all[i]) { domains := domains + [all[i]]; }
    }
    assert all[..|all|] == all;
  }

  // What the client ends up routing and resolving. The server's DNS address is
  // given as the /32 built from it; `valid` is the check on domain names. Nothing
  // is resolved through the tunnel unless the resolver itself is routed there.
  method ApplyPush(routes: seq<Cidr>, dns: Option<Dns>, srv: Option<Ip4>, noRoutes: bool, noDns: bool,
                   valid: string -> bool)
    returns (pushed: seq<Cidr>, domains: seq<string>)
    ensures forall r <- pushed :: Safe(r, srv)
    ensures domains != [] ==> dns.Some? && dns.value.server in pushed
    ensures domains ==
      if dns.Some? && !noDns && Safe(dns.value.server, srv) then ValidOnes(dns.value.domains, valid) else []
    ensures pushed ==
      (if noRoutes then [] else Filter(routes, srv)) + (if domains == [] then [] else [dns.value.server])
  {
    pushed, domains := [], [];
    if !noRoutes {
      pushed := SafeRoutes(routes, srv);
      FilteredAreSafe(routes, srv);
    }
    if dns.Some? && !noDns {
      domains := KeepValid(dns.value.domains, valid);
      var one := [dns.value.server];
      assert one[..0] == [];
      var dnsRoute := SafeRoutes(one, srv);
      FilteredAreSafe(one, srv);
      if |domains| > 0 && |dnsRoute| == 1 {
        assert dnsRoute == [dns.value.server];
        pushed := pushed + dnsRoute;
      } else {
        domains := [];
      }
    }
  }

  lemma {:induction false} FilteredAreSafe(routes: seq<Cidr>, srv: Option<Ip4>)
    ensures forall r <- Filter(routes, srv) :: Safe(r, srv)
  {
    if routes != [] { FilteredAreSafe(routes[..|routes| - 1], srv); }
  }

  // ---------------------------------------------------------------- the server's guess

  predicate IsPrivate(ip: Ip4) {
    || ip.a == 10
    || (ip.a == 172 && ip.b / 16 == 1)
    || (ip.a == 192 && ip.b == 168)
  }

  function GuessBits(ip: Ip4): nat {
    if IsPrivate(ip) then 16 else 20
  }

  // The service range guessed around the API server's address.
  function Guess(ip: Ip4): Cidr {
    var n := GuessBits(ip);
    V4(Ip4(ip.a, ip.b, Keep(ip.c, BitsKept(n, 2)), 0), n)
  }

  lemma KeepValues(b: Byte)
    ensures Keep(b, 0) == 0 && Keep(b, 4) == b / 16 * 16 && Keep(b, 8) == b
    ensures Keep(Keep(b, 4), 4) == Keep(b, 4)
  {
  }

  // A CIDR's meaning, one byte at a time.
  lemma CoversByBytes(net: Ip4, ones: nat, ip: Ip4)
    requires ones <= 32
    ensures Covers(net, ones, ip) <==>
      && Keep(net.a, BitsKept(ones, 0)) == Keep(ip.a, BitsKept(ones, 0))
      && Keep(net.b, BitsKept(ones, 1)) == Keep(ip.b, BitsKept(ones, 1))
      && Keep(net.c, BitsKept(ones, 2)) == Keep(ip.c, BitsKept(ones, 2))
      && Keep(net.d, BitsKept(ones, 3)) == Keep(ip.d, BitsKept(ones, 3))
  {
    hide Covers, Keep, BitsKept;
    ContainsIsCovers(net, ones, ip);
    assert ByteAt(net, 0) == net.a && ByteAt(ip, 0) == ip.a;
    assert ByteAt(net, 1) == net.b && ByteAt(ip, 1) == ip.b;
    assert ByteAt(net, 2) == net.c && ByteAt(ip, 2) == ip.c;
    assert ByteAt(net, 3) == net.d && ByteAt(ip, 3) == ip.d;
  }

  // Prefixes that end in the first, second or third byte.
  lemma ShortPrefix(net: Ip4, ones: nat, ip: Ip4)
    requires ones in {8, 12, 16, 20}
    ensures Covers(net, ones, ip) <==>
      && net.a == ip.a
      && (ones == 12 ==> net.b / 16 == ip.b / 16)
      && (ones >= 16 ==> net.b == ip.b)
      && (ones == 20 ==> net.c / 16 == ip.c / 16)
  {
    hide Covers, Keep;
    CoversByBytes(net, ones, ip);
    KeepValues(net.a); KeepValues(ip.a);
    KeepValues(net.b); KeepValues(ip.b);
    KeepValues(net.c); KeepValues(ip.c);
    KeepValues(net.d); KeepValues(ip.d);
  }

  // The private blocks of section 3 of RFC 1918.
  lemma PrivateMeansRfc1918(ip: Ip4)
    ensures IsPrivate(ip) <==>
      Covers(Ip4(10, 0, 0, 0), 8, ip) || Covers(Ip4(172, 16, 0, 0), 12, ip) || Covers(Ip4(192, 168, 0, 0), 16, ip)
  {
    hide Covers;
    ShortPrefix(Ip4(10, 0, 0, 0), 8, ip);
    ShortPrefix(Ip4(172, 16, 0, 0), 12, ip);
    ShortPrefix(Ip4(192, 168, 0, 0), 16, ip);
  }

  // A guess covers the address it was made from, it is private throughout or
  // nowhere, and it is the same from wherever in its range it is made: the host
  // bits are gone.
  lemma GuessCoversItsAddress(ip: Ip4, other: Ip4)
    ensures
      var g := Guess(ip);
      && Covers(g.ip, g.ones, ip)
      && (Covers(g.ip, g.ones, other) ==> IsPrivate(other) == IsPrivate(ip) && Guess(other) == g)
  {
    hide Covers, Keep;
    var g := Guess(ip);
    KeepValues(ip.c);
    KeepValues(other.c);
    ShortPrefix(g.ip, g.ones, ip);
    ShortPrefix(g.ip, g.ones, other);
  }

  // The client keeps a guess exactly when it does not cover the VPN server.
  lemma GuessMeetsFilter(ip: Ip4, srv: Ip4)
    ensures
      var g := Guess(ip);
      Filter([g], Some(srv)) == if Covers(g.ip, g.ones, srv) then [] else [g]
  {
    hide Covers, Contains, Keep;
    var g := Guess(ip);
    ContainsIsCovers(g.ip, g.ones, srv);
    assert [g][..0] == [];
  }

  // ---------------------------------------------------------------- resolv.conf

  // A line as strings.Fields splits it.
  type Line = seq<string>

  predicate StartsSvc(s: string) {
    "svc." <= s
  }

  // The first field behind "search" that starts with "svc.", without that prefix.
  function SvcDomain(fields: seq<string>): Option<string> {
    if fields == [] then None
    else if StartsSvc(fields[0]) then Some(fields[0][4..])
    else SvcDomain(fields[1..])
  }

  // The domain is what follows "svc." in the first field that starts with it.
  lemma {:induction false} SvcDomainIsFirst(fields: seq<string>)
    ensures
      match SvcDomain(fields)
      case None => forall f <- fields :: !StartsSvc(f)
      case Some(d) =>
        exists i :: 0 <= i < |fields| && fields[i] == "svc." + d && forall f <- fields[..i] :: !StartsSvc(f)
  {
    if fields != [] {
      if StartsSvc(fields[0]) {
        assert fields[0] == "svc." + fields[0][4..] && fields[..0] == [];
      } else {
        var tail := fields[1..];
        SvcDomainIsFirst(tail);
        assert fields == [fields[0]] + tail;
        if d :| SvcDomain(tail) == Some(d) {
          var i :| 0 <= i < |tail| && tail[i] == "svc." + d && forall f <- tail[..i] :: !StartsSvc(f);
          assert fields[i + 1] == tail[i] && fields[..i + 1] == [fields[0]] + tail[..i];
        }
      }
    }
  }

  function Nameserver(lines: seq<Line>): string {
    if lines == [] then ""
    else
      var before, f := Nameserver(lines[..|lines| - 1]), lines[|lines| - 1];
      if before == "" && |f| >= 2 && f[0] == "nameserver" then f[1] else before
  }

  function SearchDomain(lines: seq<Line>): string {
    if lines == [] then ""
    else
      var before, f := SearchDomain(lines[..|lines| - 1]), lines[|lines| - 1];
      if |f| >= 2 && f[0] == "search" && SvcDomain(f[1..]).Some? then SvcDomain(f[1..]).value else before
  }

  // `isV4` says whether net.ParseIP reads a dotted IPv4 address.
  method K8sPush(lines: seq<Line>, svcHost: Option<Ip4>, isV4: string -> bool)
    returns (routes: seq<Cidr>, dns: Option<(string, string)>)
    ensures svcHost.None? ==> routes == [] && dns.None?
    ensures svcHost.Some? ==> routes == [Guess(svcHost.value)]
    ensures svcHost.Some? ==>
      var n, d := Nameserver(lines), SearchDomain(lines);
      dns == if isV4(n) && d != "" then Some((n, d)) else None
  {
    if svcHost.None? { return [], None; }
    routes := [Guess(svcHost.value)];
    var nameserver, domain := "", "";
    for i := 0 to |lines|
      invariant nameserver == Nameserver(lines[..i]) && domain == SearchDomain(lines[..i])
    {
      assert lines[..i + 1][..i] == lines[..i];
      var f := lines[i];
      if |f| < 2 { continue; }
      if f[0] == "nameserver" {
        if nameserver == "" { nameserver := f[1]; }
      } else if f[0] == "search" {
        var rest := f[1..];
        for j := 0 to |rest|
          invariant SvcDomain(rest) == SvcDomain(rest[j..])
          invariant domain == SearchDomain(lines[..i])
        {
          assert rest[j..][1..] == rest[j + 1..];
          if StartsSvc(rest[j]) {
            domain := rest[j][4..];
            break;
          }
        }
      }
    }
    assert lines[..|lines|] == lines;
    return routes, if isV4(nameserver) && domain != "" then Some((nameserver, domain)) else None;
  }

  // The first nameserver line counts, however many follow.
  lemma {:induction false} FirstNameserverCounts(lines: seq<Line>, n: nat)
    requires n < |lines| && |lines[n]| >= 2 && lines[n][0] == "nameserver" && lines[n][1] != ""
    requires forall i :: 0 <= i < n ==> !(|lines[i]| >= 2 && lines[i][0] == "nameserver")
    ensures Nameserver(lines) == lines[n][1]
  {
    var m := |lines| - 1;
    if n < m {
      FirstNameserverCounts(lines[..m], n);
    } else {
      NoNameserver(lines[..m]);
    }
  }

  lemma {:induction false} NoNameserver(lines: seq<Line>)
    requires forall f <- lines :: !(|f| >= 2 && f[0] == "nameserver")
    ensures Nameserver(lines) == ""
  {
    if lines != [] {
      assert lines[|lines| - 1] in lines;
      NoNameserver(lines[..|lines| - 1]);
    }
  }

  // Of the search lines, the last one with a "svc." entry counts.
  lemma {:induction false} LastSearchCounts(lines: seq<Line>, n: nat)
    requires n < |lines| && |lines[n]| >= 2 && lines[n][0] == "search" && SvcDomain(lines[n][1..]).Some?
    requires forall i :: n < i < |lines| ==>
      !(|lines[i]| >= 2 && lines[i][0] == "search" && SvcDomain(lines[i][1..]).Some?)
    ensures SearchDomain(lines) == SvcDomain(lines[n][1..]).value
  {
    if n < |lines| - 1 { LastSearchCounts(lines[..|lines| - 1], n); }
  }

  lemma {:induction false} NoSearch(lines: seq<Line>)
    requires forall f <- lines :: !(|f| >= 2 && f[0] == "search" && SvcDomain(f[1..]).Some?)
    ensures SearchDomain(lines) == ""
  {
    if lines != [] {
      assert lines[|lines| - 1] in lines;
      NoSearch(lines[..|lines| - 1]);
    }
  }

  // ---------------------------------------------------------------- precedence

  class Config {
    var pushRoutes: seq<Cidr>
    var pushDns: Option<(string, string)>
    var noPush: bool
    var expose: string
    var clusterDns: string

    constructor (pushRoutes: seq<Cidr>, pushDns: Option<(string, string)>, noPush: bool, expose: string)
      ensures this.pushRoutes == pushRoutes && this.pushDns == pushDns
      ensures this.noPush == noPush && this.expose == expose && clusterDns == ""
    {
      this.pushRoutes, this.pushDns, this.noPush, this.expose, clusterDns := pushRoutes, pushDns, noPush, expose, "";
    }

    // Configuration first, then the environment, then what Kubernetes suggests;
    // labeled mode takes no guessed range and learns the cluster DNS regardless.
    method ResolvePush(envExpose: string, envRoutes: seq<Cidr>, lines: seq<Line>, svcHost: Option<Ip4>,
                       isV4: string -> bool)
      modifies this
      ensures expose == (if old(expose) == "" then envExpose else old(expose)) && noPush == old(noPush)
      ensures noPush ==> pushRoutes == [] && pushDns == None
      ensures !noPush && old(pushRoutes) != [] ==> pushRoutes == old(pushRoutes)
      ensures !noPush && old(pushRoutes) == [] && envRoutes != [] ==> pushRoutes == envRoutes
      ensures !noPush && old(pushRoutes) == [] && envRoutes == [] ==>
                pushRoutes == if svcHost.Some? && expose != "labeled" then [Guess(svcHost.value)] else []
      ensures
        var n, d := Nameserver(lines), SearchDomain(lines);
        var found := svcHost.Some? && isV4(n) && d != "";
        && clusterDns == (if found then n else old(clusterDns))
        && (!noPush ==> pushDns == if old(pushDns) == None && found then Some((n, d)) else old(pushDns))
    {
      if expose == "" { expose := envExpose; }
      var routes, dns := K8sPush(lines, svcHost, isV4);
      if dns.Some? { clusterDns := dns.value.0; }
      if noPush {
        pushRoutes, pushDns := [], None;
        return;
      }
      if |pushRoutes| == 0 { pushRoutes := envRoutes; }
      if |pushRoutes| == 0 && routes != [] && expose != "labeled" { pushRoutes := routes; }
      if pushDns == None && dns.Some? { pushDns := dns; }
    }
  }
}
