/** Labeled mode: the set of exposed services, the routes pushed for it, and the
    decisions taken from it. */
module Expose {
  import opened Bytes
  import opened Dotted
  import opened Packets

  datatype SvcPort = SvcPort(ip: string, proto: string, port: Uint16)

  // The set as one value; `self` is empty until the dashboard is allowed.
  datatype Exposed = Exposed(allow: set<SvcPort>, dns: string, self: SvcPort)

  const NO_SELF := SvcPort("", "", 0)

  predicate Allowed(e: Exposed, ip: string, proto: string, port: Uint16) {
    || (ip == e.dns && port == 53)
    || SvcPort(ip, proto, port) == e.self
    || SvcPort(ip, proto, port) in e.allow
  }

  predicate AllowPacket(e: Exposed, pkt: Bytes) {
    var t := Packets.TargetOf(pkt);
    t.Some? && Allowed(e, Render(t.value.dst), Name(t.value.proto), t.value.port)
  }

  // ---------------------------------------------------------------- string order

  // Strings compare byte by byte, a prefix first.
  predicate Before(a: string, b: string) {
    b != [] && (a == [] || a[0] < b[0] || (a[0] == b[0] && Before(a[1..], b[1..])))
  }

  lemma {:induction false} BeforeIsTotal(a: string, b: string)
    ensures a == b || Before(a, b) || Before(b, a)
    ensures !(Before(a, b) && Before(b, a)) && !Before(a, a)
  {
    if a != [] {
      BeforeIsTotal(a[1..], a[1..]);
      if b != [] && a[0] == b[0] {
        BeforeIsTotal(a[1..], b[1..]);
        assert a == [a[0]] + a[1..] && b == [b[0]] + b[1..];
      }
    }
  }

  lemma {:induction false} BeforeIsTransitive(a: string, b: string, c: string)
    requires Before(a, b) && Before(b, c)
    ensures Before(a, c)
  {
    if a != [] && a[0] == b[0] && b[0] == c[0] {
      BeforeIsTransitive(a[1..], b[1..], c[1..]);
    }
  }

  ghost predicate StrictlySorted(s: seq<string>) {
    forall i, j :: 0 <= i < j < |s| ==> Before(s[i], s[j])
  }

  function Insert(s: seq<string>, x: string): seq<string> {
    if s == [] || Before(x, s[0]) then [x] + s else [s[0]] + Insert(s[1..], x)
  }

  lemma {:induction false} InsertKeepsSorted(s: seq<string>, x: string)
    requires StrictlySorted(s) && x !in s
    ensures StrictlySorted(Insert(s, x))
    ensures forall y :: y in Insert(s, x) <==> y in s || y == x
  {
    if s != [] {
      if Before(x, s[0]) {
        forall j | 0 <= j < |s| ensures Before(x, s[j]) {
          if j > 0 { BeforeIsTransitive(x, s[0], s[j]); }
        }
      } else {
        BeforeIsTotal(x, s[0]);
        var tail := Insert(s[1..], x);
        InsertKeepsSorted(s[1..], x);
        assert s == [s[0]] + s[1..];
        forall j | 0 <= j < |tail| ensures Before(s[0], tail[j]) {
          assert tail[j] in tail;
          if tail[j] != x {
            var i :| 0 <= i < |s| - 1 && s[1..][i] == tail[j];
            assert s[i + 1] == tail[j];
          }
        }
      }
    }
  }

  lemma HeadIsIn(s: seq<string>)
    ensures s == [] || s[0] in s
  {
  }

  // A set of strings has one strictly sorted listing.
  lemma {:induction false} SortedListingIsUnique(s: seq<string>, t: seq<string>)
    requires StrictlySorted(s) && StrictlySorted(t) && forall x :: x in s <==> x in t
    ensures s == t
  {
    HeadIsIn(t);
    if s != [] {
      assert s[0] in s && s[0] in t;
      assert t[0] in t && t[0] in s;
      var i :| 0 <= i < |t| && t[i] == s[0];
      var j :| 0 <= j < |s| && s[j] == t[0];
      BeforeIsTotal(s[0], t[0]);
      assert s[0] == t[0];
      TailsMatch(s, t);
      TailsMatch(t, s);
      SortedListingIsUnique(s[1..], t[1..]);
      assert s == [s[0]] + s[1..] && t == [t[0]] + t[1..];
    }
  }

  lemma TailsMatch(s: seq<string>, t: seq<string>)
    requires s != [] && t != [] && StrictlySorted(s) && s[0] == t[0] && forall x <- s :: x in t
    ensures forall x <- s[1..] :: x in t[1..]
  {
    forall x <- s[1..] ensures x in t[1..] {
      var i :| 0 <= i < |s| - 1 && s[1..][i] == x;
      assert s[i + 1] == x && x in s;
      BeforeIsTotal(s[0], s[0]);
      var j :| 0 <= j < |t| && t[j] == x;
      assert t[1..][j - 1] == x;
    }
  }

  // ---------------------------------------------------------------- routes

  // One /32 per exposed address, sorted, none twice.
  ghost predicate AreRoutes(allow: set<SvcPort>, out: seq<string>) {
    StrictlySorted(out) && forall r :: r in out <==> exists p <- allow :: r == p.ip + "/32"
  }

  // The order in which a map is walked cannot show in the routes.
  lemma RoutesAreDetermined(allow: set<SvcPort>, out: seq<string>, out': seq<string>)
    requires AreRoutes(allow, out) && AreRoutes(allow, out')
    ensures out == out'
  {
    SortedListingIsUnique(out, out');
  }

  lemma SlashInjective(a: string, b: string)
    ensures a + "/32" == b + "/32" <==> a == b
  {
    assert (a + "/32")[..|a + "/32"| - 3] == a;
    assert (b + "/32")[..|b + "/32"| - 3] == b;
  }

  // What net.ParseIP and a DNS lookup yield; `V4` is any address with a To4 form.
  datatype IpAddr = V4(ip: Ip4) | V6

  // The outcome of one fetch of the labelled services.
  datatype Fetch = Listed(ports: seq<SvcPort>) | Failed

  function SetOf(ports: seq<SvcPort>): set<SvcPort> {
    set p <- ports
  }

  class ExposeSet {
    var allow: set<SvcPort>
    const dns: string
    var self: SvcPort

    function View(): Exposed
      reads this
    {
      Exposed(allow, dns, self)
    }

    constructor (dnsIP: string)
      ensures View() == Exposed({}, dnsIP, NO_SELF)
    {
      allow, dns, self := {}, dnsIP, NO_SELF;
    }

    method AllowSelf(ip: string, port: Uint16)
      modifies this`self
      ensures View() == old(View()).(self := SvcPort(ip, "tcp", port))
      ensures Allowed(View(), ip, "tcp", port)
      ensures old(self) == NO_SELF ==>
        forall s: SvcPort :: s != SvcPort(ip, "tcp", port) && s != NO_SELF ==>
          (Allowed(View(), s.ip, s.proto, s.port) <==> Allowed(old(View()), s.ip, s.proto, s.port))
    {
      self := SvcPort(ip, "tcp", port);
    }

    method Set(ports: seq<SvcPort>)
      modifies this`allow
      ensures allow == SetOf(ports)
    {
      var m: set<SvcPort> := {};
      for i := 0 to |ports|
        invariant m == SetOf(ports[..i])
      {
        assert ports[..i + 1] == ports[..i] + [ports[i]];
        m := m + {ports[i]};
      }
      assert ports[..|ports|] == ports;
      allow := m;
    }

    // One turn of the watch loop: a failure keeps the previous list.
    method Refresh(fetch: Fetch)
      modifies this`allow
      ensures View() == Refreshed(old(View()), fetch)
    {
      if fetch.Listed? { Set(fetch.ports); }
    }

    method Routes() returns (out: seq<string>)
      ensures AreRoutes(allow, out)
    {
      var seen: set<string> := {};
      var rest := allow;
      while rest != {}
        invariant rest <= allow
        invariant forall ip :: ip in seen <==> exists p <- allow - rest :: p.ip == ip
      {
        var p :| p in rest;
        ghost var before := rest;
        rest := rest - {p};
        assert allow - rest == (allow - before) + {p};
        seen := seen + {p.ip};
      }
      assert allow - rest == allow;
      out := [];
      var ips := seen;
      while ips != {}
        invariant ips <= seen
        invariant StrictlySorted(out)
        invariant forall r :: r in out <==> exists ip <- seen - ips :: r == ip + "/32"
      {
        var ip :| ip in ips;
        ghost var before := ips;
        forall other <- seen - ips ensures other + "/32" != ip + "/32" { SlashInjective(other, ip); }
        InsertKeepsSorted(out, ip + "/32");
        out := Insert(out, ip + "/32");
        ips := ips - {ip};
        assert seen - ips == (seen - before) + {ip};
      }
      assert seen - ips == seen;
    }

    // Names are resolved once, and what was checked is what gets dialled.
    method ResolveTarget(host: string, port: Uint16, parsed: Option<IpAddr>, lookup: Option<seq<IpAddr>>)
      returns (target: Option<string>)
      ensures target == Resolve(View(), port, if parsed.Some? then Some([parsed.value]) else lookup)
    {
      var ips: seq<IpAddr>;
      if parsed.Some? {
        ips := [parsed.value];
      } else {
        if lookup.None? { return None; }
        ips := lookup.value;
      }
      for i := 0 to |ips|
        invariant Resolve(View(), port, Some(ips)) == Resolve(View(), port, Some(ips[i..]))
      {
        assert ips[i..][1..] == ips[i + 1..];
        if ips[i].V4? && Allowed(View(), Render(ips[i].ip), "tcp", port) {
          return Some(Render(ips[i].ip));
        }
      }
      return None;
    }
  }

  // The set a server starts with: configured DNS goes before the cluster's, and
  // the dashboard is let through if it has a port (a number cut down to 16 bits).
  method StartingSet(labeled: bool, clusterDns: string, pushDns: Option<string>, serverIP: string, port: Option<int>)
    returns (e: ExposeSet?)
    ensures e == null <==> !labeled
    ensures e != null ==>
      && fresh(e) && e.allow == {} && e.dns == (if pushDns.Some? then pushDns.value else clusterDns)
      && (port.None? ==> e.self == NO_SELF)
      && (port.Some? ==> Allowed(e.View(), serverIP, "tcp", port.value % 0x1_0000))
      && forall s: SvcPort :: s.port != 53 && s != NO_SELF && Allowed(e.View(), s.ip, s.proto, s.port) ==>
           s.ip == serverIP && s.proto == "tcp" && port.Some? && s.port == port.value % 0x1_0000
  {
    if !labeled { return null; }
    var dnsIP := clusterDns;
    if pushDns.Some? { dnsIP := pushDns.value; }
    e := new ExposeSet(dnsIP);
    if port.Some? { e.AllowSelf(serverIP, port.value % 0x1_0000); }
  }

  predicate Dialable(e: Exposed, port: Uint16, ip: IpAddr) {
    ip.V4? && Allowed(e, Render(ip.ip), "tcp", port)
  }

  function Resolve(e: Exposed, port: Uint16, ips: Option<seq<IpAddr>>): Option<string>
    decreases if ips.Some? then |ips.value| else 0
  {
    if ips.None? || ips.value == [] then None
    else if Dialable(e, port, ips.value[0]) then Some(Render(ips.value[0].ip))
    else Resolve(e, port, Some(ips.value[1..]))
  }

  // A dial target is an address of the answer, allowed on TCP for the port, and
  // no earlier one was; a dial is refused only when no address is allowed.
  lemma {:induction false} ResolvedIsFirstAllowed(e: Exposed, port: Uint16, ips: seq<IpAddr>)
    ensures
      match Resolve(e, port, Some(ips))
      case None => forall ip <- ips :: !Dialable(e, port, ip)
      case Some(s) =>
        exists i :: 0 <= i < |ips| && Dialable(e, port, ips[i]) && s == Render(ips[i].ip) &&
                    forall ip <- ips[..i] :: !Dialable(e, port, ip)
    decreases |ips|
  {
    hide Allowed, Render;
    if ips != [] && !Dialable(e, port, ips[0]) {
      var tail := ips[1..];
      assert ips == [ips[0]] + tail;
      ResolvedIsFirstAllowed(e, port, tail);
      if s :| Resolve(e, port, Some(ips)) == Some(s) {
        var i :| 0 <= i < |tail| && Dialable(e, port, tail[i]) && s == Render(tail[i].ip) &&
                 forall ip <- tail[..i] :: !Dialable(e, port, ip);
        assert ips[..i + 1] == [ips[0]] + tail[..i] && ips[i + 1] == tail[i];
      }
    }
  }

  // ---------------------------------------------------------------- refreshes

  function Refreshed(e: Exposed, fetch: Fetch): Exposed {
    match fetch
    case Listed(ports) => e.(allow := SetOf(ports))
    case Failed => e
  }

  function AfterFetches(e: Exposed, fetches: seq<Fetch>): Exposed {
    if fetches == [] then e
    else Refreshed(AfterFetches(e, fetches[..|fetches| - 1]), fetches[|fetches| - 1])
  }

  // The allow set is the last list that came through, or what it began as.
  lemma {:induction false} LastGoodListIsKept(e: Exposed, fetches: seq<Fetch>, n: nat)
    requires n <= |fetches|
    requires n > 0 ==> fetches[n - 1].Listed?
    requires forall i :: n <= i < |fetches| ==> fetches[i].Failed?
    ensures AfterFetches(e, fetches) == e.(allow := if n == 0 then e.allow else SetOf(fetches[n - 1].ports))
  {
    var m := |fetches| - 1;
    if n < |fetches| {
      LastGoodListIsKept(e, fetches[..m], n);
    } else if n > 0 {
      OnlyAllowChanges(e, fetches[..m]);
    }
  }

  lemma {:induction false} OnlyAllowChanges(e: Exposed, fetches: seq<Fetch>)
    ensures AfterFetches(e, fetches) == e.(allow := AfterFetches(e, fetches).allow)
  {
    if fetches != [] { OnlyAllowChanges(e, fetches[..|fetches| - 1]); }
  }

  // ---------------------------------------------------------------- packets

  // A packet that gets through goes to DNS, to the dashboard, or along a route in
  // the list for the current set.
  lemma AcceptedPacketsAreRouted(e: Exposed, pkt: Bytes, routes: seq<string>)
    requires AllowPacket(e, pkt) && AreRoutes(e.allow, routes)
    ensures
      var t := Packets.TargetOf(pkt).value;
      || (Render(t.dst) == e.dns && t.port == 53)
      || SvcPort(Render(t.dst), Name(t.proto), t.port) == e.self
      || Render(t.dst) + "/32" in routes
  {
  }

  // A set of services given by address rather than by string.
  function Services(targets: set<Target>): set<SvcPort> {
    set t <- targets :: SvcPort(Render(t.dst), Name(t.proto), t.port)
  }

  // The set in terms of addresses; there may be no cluster DNS and no dashboard yet.
  function Rendered(targets: set<Target>, dns: Option<Ip4>, self: Option<Target>): Exposed {
    Exposed(Services(targets), if dns.Some? then Render(dns.value) else "",
            if self.Some? then SvcPort(Render(self.value.dst), Name(self.value.proto), self.value.port) else NO_SELF)
  }

  ghost predicate Permitted(targets: set<Target>, dns: Option<Ip4>, self: Option<Target>, t: Target) {
    (dns == Some(t.dst) && t.port == 53) || self == Some(t) || t in targets
  }

  // For every set there can be: a packet passes if and only if it is headed for
  // something the set allows.
  lemma PacketCheckIsExact(e: Exposed, pkt: Bytes)
    ensures AllowPacket(e, pkt) <==> exists t :: HeadedFor(pkt, t) && Allowed(e, Render(t.dst), Name(t.proto), t.port)
  {
    hide HeadedFor, Packets.TargetOf, Allowed, Render;
    if t :| Packets.TargetOf(pkt) == Some(t) {
      ReadingIsExact(pkt, t);
    }
    if t :| HeadedFor(pkt, t) && Allowed(e, Render(t.dst), Name(t.proto), t.port) {
      ReadingIsExact(pkt, t);
    }
  }

  // And what it allows are the listed targets, DNS on port 53 and the dashboard,
  // as far as there are any: strings decide as addresses do, because rendering
  // confuses no two addresses and makes none empty.
  lemma AllowedIsPermitted(targets: set<Target>, dns: Option<Ip4>, self: Option<Target>, t: Target)
    ensures Allowed(Rendered(targets, dns, self), Render(t.dst), Name(t.proto), t.port) <==>
      Permitted(targets, dns, self, t)
  {
    RenderIsNotEmpty(t.dst);
    if dns.Some? { RenderInjective(t.dst, dns.value); }
    if self.Some? { RenderInjective(t.dst, self.value.dst); }
    hide Render;
    var s := SvcPort(Render(t.dst), Name(t.proto), t.port);
    if s in Services(targets) {
      var u :| u in targets && s == SvcPort(Render(u.dst), Name(u.proto), u.port);
      RenderInjective(t.dst, u.dst);
      assert t == u;
    }
  }

  lemma RenderIsNotEmpty(ip: Ip4)
    ensures Render(ip) != ""
  {
  }

  // A new set, before any list came through and without a dashboard, lets only
  // cluster DNS pass, and without that nothing.
  lemma NewSetFailsClosed(dns: Option<Ip4>, pkt: Bytes)
    ensures
      AllowPacket(Exposed({}, if dns.Some? then Render(dns.value) else "", NO_SELF), pkt) <==>
        exists t :: HeadedFor(pkt, t) && dns == Some(t.dst) && t.port == 53
  {
    hide HeadedFor, AllowPacket, Allowed, Render;
    var e := Exposed({}, if dns.Some? then Render(dns.value) else "", NO_SELF);
    assert Services({}) == {} && Rendered({}, dns, None) == e;
    PacketCheckIsExact(e, pkt);
    forall t: Target ensures Allowed(e, Render(t.dst), Name(t.proto), t.port) <==> dns == Some(t.dst) && t.port == 53 {
      AllowedIsPermitted({}, dns, None, t);
    }
  }

  // No refresh takes the dashboard away again.
  lemma DashboardStaysAllowed(e: Exposed, ip: string, port: Uint16, fetches: seq<Fetch>)
    ensures Allowed(AfterFetches(e.(self := SvcPort(ip, "tcp", port)), fetches), ip, "tcp", port)
  {
    OnlyAllowChanges(e.(self := SvcPort(ip, "tcp", port)), fetches);
  }

  // ---------------------------------------------------------------- pushing routes

  // What a client is told to route; `expose` is null unless labeled mode is on.
  method PushRoutes(noPush: bool, configured: seq<string>, expose: ExposeSet?) returns (out: seq<string>)
    ensures noPush ==> out == []
    ensures !noPush && expose == null ==> out == configured
    ensures !noPush && expose != null ==>
              |configured| <= |out| && out[..|configured|] == configured &&
              AreRoutes(expose.allow, out[|configured|..])
  {
    if noPush { return []; }
    if expose == null { return configured; }
    var routes := expose.Routes();
    out := configured + routes;
    assert out[|configured|..] == routes;
  }
}
