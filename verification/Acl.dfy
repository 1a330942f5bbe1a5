/** The per-device access list applied to packets on their way to a client. */
module Acl {
  import opened Bytes
  import Packets

  // Port 0 matches any port, protocol "*" any protocol.
  datatype PortSpec = PortSpec(proto: string, port: nat)

  datatype Rule = Rule(device: string, allow: seq<PortSpec>, deny: seq<PortSpec>)

  datatype Policy = Policy(defaultPolicy: string, rules: seq<Rule>)

  // What reading acl.yaml can come to.
  datatype File = Missing | Unreadable | Malformed | Parsed(policy: Policy)

  // ---------------------------------------------------------------- decisions

  function ExtractProtoPort(pkt: Bytes): (string, nat)
    requires |pkt| >= 20
  {
    var proto := match pkt[9] case 6 => "tcp" case 17 => "udp" case 1 => "icmp" case _ => "*";
    var ihl := Packets.HeaderLen(pkt);
    if ihl < 20 then (proto, 0)
    else if (proto == "tcp" || proto == "udp") && |pkt| >= ihl + 4
    then (proto, GetUint16(pkt[ihl + 2..ihl + 4]))
    else (proto, 0)
  }

  predicate Matches(spec: PortSpec, proto: string, port: nat) {
    (spec.proto == "*" || spec.proto == proto) && (spec.port == 0 || spec.port == port)
  }

  // The rule in force for a device: the last one that names it.
  function LastRule(rules: seq<Rule>, device: string): Option<Rule> {
    if rules == [] then None
    else if rules[|rules| - 1].device == device then Some(rules[|rules| - 1])
    else LastRule(rules[..|rules| - 1], device)
  }

  predicate DefaultAllows(p: Policy) {
    p.defaultPolicy != "deny"
  }

  // Deny first; then an allow list, if there is one, is closed; then the default.
  ghost predicate Permits(p: Policy, device: string, pkt: Bytes) {
    && |pkt| >= 20
    && match LastRule(p.rules, device)
       case None => DefaultAllows(p)
       case Some(r) =>
         var (proto, port) := ExtractProtoPort(pkt);
         && (forall spec <- r.deny :: !Matches(spec, proto, port))
         && (if r.allow == [] then DefaultAllows(p) else exists spec <- r.allow :: Matches(spec, proto, port))
  }

  class Engine {
    var policy: Policy
    var index: map<string, Rule>

    // The index answers as a scan of the rule list for its last match does.
    ghost predicate Valid()
      reads this
    {
      forall d: string :: LastRule(policy.rules, d) == if d in index then Some(index[d]) else None
    }

    constructor ()
      ensures Valid() && policy == Policy("", [])
    {
      policy, index := Policy("", []), map[];
    }

    method Reload(file: File) returns (ok: bool)
      requires Valid()
      modifies this
      ensures Valid()
      ensures ok <==> file.Missing? || file.Parsed?
      ensures policy == match file
        case Missing => Policy("allow", [])
        case Parsed(p) => if p.defaultPolicy == "" then p.(defaultPolicy := "allow") else p
        case _ => old(policy)
    {
      match file {
        case Missing =>
          policy, index := Policy("allow", []), map[];
          return true;
        case Unreadable => return false;
        case Malformed => return false;
        case Parsed(read) =>
          var p := read;
          if p.defaultPolicy == "" { p := p.(defaultPolicy := "allow"); }
          var idx: map<string, Rule> := map[];
          for i := 0 to |p.rules|
            invariant policy == old(policy) && index == old(index)
            invariant forall d: string :: LastRule(p.rules[..i], d) == if d in idx then Some(idx[d]) else None
          {
            assert p.rules[..i + 1][..i] == p.rules[..i];
            idx := idx[p.rules[i].device := p.rules[i]];
          }
          assert p.rules[..|p.rules|] == p.rules;
          policy, index := p, idx;
          return true;
      }
    }

    method Allow(device: string, pkt: Bytes) returns (ok: bool)
      requires Valid()
      ensures ok <==> Permits(policy, device, pkt)
    {
      if |pkt| < 20 { return false; }
      if device !in index { return DefaultAllows(policy); }
      var rule := index[device];
      var (proto, port) := ExtractProtoPort(pkt);
      for i := 0 to |rule.deny|
        invariant forall j :: 0 <= j < i ==> !Matches(rule.deny[j], proto, port)
      {
        if Matches(rule.deny[i], proto, port) { return false; }
      }
      if |rule.allow| > 0 {
        for i := 0 to |rule.allow|
          invariant forall j :: 0 <= j < i ==> !Matches(rule.allow[j], proto, port)
        {
          if Matches(rule.allow[i], proto, port) {
            assert rule.allow[i] in rule.allow;
            return true;
          }
        }
        return false;
      }
      return DefaultAllows(policy);
    }
  }

  // ---------------------------------------------------------------- properties

  function WithDeny(rules: seq<Rule>, i: nat, spec: PortSpec): seq<Rule>
    requires i < |rules|
  {
    rules[i := rules[i].(deny := rules[i].deny + [spec])]
  }

  // Rule i is the one that counts for the device.
  ghost predicate InForce(rules: seq<Rule>, i: nat, device: string)
    requires i < |rules|
  {
    rules[i].device == device && forall j :: i < j < |rules| ==> rules[j].device != device
  }

  lemma {:induction false} LastRuleWithDeny(rules: seq<Rule>, i: nat, spec: PortSpec, device: string)
    requires i < |rules|
    ensures InForce(rules, i, device) ==>
      && LastRule(rules, device) == Some(rules[i])
      && LastRule(WithDeny(rules, i, spec), device) == Some(WithDeny(rules, i, spec)[i])
    ensures !InForce(rules, i, device) ==> LastRule(WithDeny(rules, i, spec), device) == LastRule(rules, device)
  {
    var n := |rules| - 1;
    if i < n {
      LastRuleWithDeny(rules[..n], i, spec, device);
      assert WithDeny(rules, i, spec)[..n] == WithDeny(rules[..n], i, spec);
    } else {
      assert WithDeny(rules, i, spec)[..n] == rules[..n];
    }
  }

  // Adding a deny to any rule refuses exactly the packets it names, for the
  // device the rule counts for, and nothing else changes.
  lemma DenyRefusesItsPackets(p: Policy, i: nat, spec: PortSpec, device: string, pkt: Bytes)
    requires i < |p.rules| && |pkt| >= 20
    ensures
      var (proto, port) := ExtractProtoPort(pkt);
      Permits(p.(rules := WithDeny(p.rules, i, spec)), device, pkt) <==>
        Permits(p, device, pkt) && !(InForce(p.rules, i, device) && Matches(spec, proto, port))
  {
    LastRuleWithDeny(p.rules, i, spec, device);
    var deny := p.rules[i].deny;
    assert forall s :: s in deny + [spec] <==> s in deny || s == spec;
  }

  // So it never lets a refused packet through.
  lemma DenyOnlyTightens(p: Policy, i: nat, spec: PortSpec, device: string, pkt: Bytes)
    requires i < |p.rules|
    requires Permits(p.(rules := WithDeny(p.rules, i, spec)), device, pkt)
    ensures Permits(p, device, pkt)
  {
    DenyRefusesItsPackets(p, i, spec, device, pkt);
  }

  // The two packet parsers agree wherever the labeled-mode one accepts.
  lemma ParsersAgree(pkt: Bytes)
    requires Packets.TargetOf(pkt).Some?
    ensures
      var t := Packets.TargetOf(pkt).value;
      |pkt| >= 20 && ExtractProtoPort(pkt) == (Packets.Name(t.proto), t.port)
  {
  }

  // On a packet built with any header the parser reads the protocol by its number
  // and, of TCP and UDP only, the port.
  lemma BuiltPacketIsParsed(h: Packets.Header, source: Bytes, port: Uint16, rest: Bytes)
    requires h.Legal() && |source| == 2
    ensures
      var pkt := Packets.Packet(h, source, port, rest);
      |pkt| >= 20 &&
      ExtractProtoPort(pkt) ==
        if h.proto == 6 then ("tcp", port)
        else if h.proto == 17 then ("udp", port)
        else (if h.proto == 1 then "icmp" else "*", 0)
  {
    Packets.PacketReads(h, source, port, rest);
    Uint16RoundTrip(port, PutUint16(port));
    hide Packets.Packet;
  }

  // Port 0 and protocol "*" stand for any; nothing else does.
  lemma MatchesMeans(spec: PortSpec, proto: string, port: nat)
    ensures Matches(PortSpec("*", 0), proto, port)
    ensures Matches(spec, proto, port) ==> spec.proto in {"*", proto} && spec.port in {0, port}
    ensures Matches(PortSpec(proto, port), proto, port) && Matches(PortSpec("*", port), proto, port)
    ensures Matches(PortSpec(proto, 0), proto, port)
  {
  }

  function WithAllow(rules: seq<Rule>, i: nat, spec: PortSpec): seq<Rule>
    requires i < |rules|
  {
    rules[i := rules[i].(allow := rules[i].allow + [spec])]
  }

  lemma {:induction false} LastRuleWithAllow(rules: seq<Rule>, i: nat, spec: PortSpec, device: string)
    requires i < |rules|
    ensures InForce(rules, i, device) ==>
      && LastRule(rules, device) == Some(rules[i])
      && LastRule(WithAllow(rules, i, spec), device) == Some(WithAllow(rules, i, spec)[i])
    ensures !InForce(rules, i, device) ==> LastRule(WithAllow(rules, i, spec), device) == LastRule(rules, device)
  {
    var n := |rules| - 1;
    if i < n {
      LastRuleWithAllow(rules[..n], i, spec, device);
      assert WithAllow(rules, i, spec)[..n] == WithAllow(rules[..n], i, spec);
    } else {
      assert WithAllow(rules, i, spec)[..n] == rules[..n];
    }
  }

  // Adding an allow lets exactly the packets it names through, as far as no deny
  // names them; the first allow closes the list to all others. Whoever the rule
  // does not count for notices nothing.
  lemma AllowAdmitsItsPackets(p: Policy, i: nat, spec: PortSpec, device: string, pkt: Bytes)
    requires i < |p.rules| && |pkt| >= 20
    ensures
      var (proto, port) := ExtractProtoPort(pkt);
      var p', r := p.(rules := WithAllow(p.rules, i, spec)), p.rules[i];
      var denied := exists d <- r.deny :: Matches(d, proto, port);
      Permits(p', device, pkt) <==>
        if !InForce(p.rules, i, device) then Permits(p, device, pkt)
        else if denied then false
        else Matches(spec, proto, port) || (r.allow != [] && Permits(p, device, pkt))
  {
    LastRuleWithAllow(p.rules, i, spec, device);
    var allow := p.rules[i].allow;
    assert forall s :: s in allow + [spec] <==> s in allow || s == spec;
  }

  // Without a rule, or with one that names no ports at all, the default decides:
  // everything passes unless it is "deny".
  lemma DefaultDecides(p: Policy, device: string, pkt: Bytes)
    requires |pkt| >= 20
    requires forall r <- p.rules :: r.device == device ==> r.allow == [] && r.deny == []
    ensures Permits(p, device, pkt) <==> p.defaultPolicy != "deny"
  {
    LastRuleIsIn(p.rules, device);
  }

  lemma {:induction false} LastRuleIsIn(rules: seq<Rule>, device: string)
    ensures LastRule(rules, device).Some? ==>
      LastRule(rules, device).value in rules && LastRule(rules, device).value.device == device
  {
    if rules != [] { LastRuleIsIn(rules[..|rules| - 1], device); }
  }

  // A packet without a whole header is refused under every policy.
  lemma ShortIsRefused(p: Policy, device: string, pkt: Bytes)
    requires |pkt| < 20
    ensures !Permits(p, device, pkt)
  {
  }
}
