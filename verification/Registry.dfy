/** The client registry: who holds which tunnel address. Pool addresses are the
    base and an octet from 2 to 254. */
module Registry {
  import opened Bytes
  import opened Dotted
  import Routes

  newtype Octet = x: int | 0 <= x < 0x100

  const FIRST_OCTET := 2
  const LAST_OCTET := 254

  function Pool(base: string, from: nat): set<string> {
    set o: nat | from <= o <= LAST_OCTET :: InPool(base, o)
  }

  // The lowest octet from `from` on whose address is free.
  function LeastFree(taken: set<string>, base: string, from: nat): Option<nat>
    decreases LAST_OCTET + 1 - from
  {
    if from > LAST_OCTET then None
    else if InPool(base, from) !in taken then Some(from)
    else LeastFree(taken, base, from + 1)
  }

  lemma {:induction false} LeastFreeIsLeast(taken: set<string>, base: string, from: nat)
    ensures
      match LeastFree(taken, base, from)
      case None => forall p :: from <= p <= LAST_OCTET ==> InPool(base, p) in taken
      case Some(o) =>
        && from <= o <= LAST_OCTET && InPool(base, o) !in taken
        && forall p :: from <= p < o ==> InPool(base, p) in taken
    decreases LAST_OCTET + 1 - from
  {
    hide InPool;
    if from <= LAST_OCTET { LeastFreeIsLeast(taken, base, from + 1); }
  }

  lemma {:induction false} PoolSize(base: string, from: nat)
    requires from <= LAST_OCTET + 1
    ensures |Pool(base, from)| == LAST_OCTET + 1 - from
    decreases LAST_OCTET + 1 - from
  {
    if from <= LAST_OCTET {
      PoolSize(base, from + 1);
      forall o: nat | from < o ensures InPool(base, o) != InPool(base, from) { InPoolInjective(base, o, from); }
      assert Pool(base, from) == Pool(base, from + 1) + {InPool(base, from)};
    }
  }

  lemma {:induction false} SubsetSize(a: set<string>, b: set<string>)
    requires a <= b
    ensures |a| <= |b| && (|a| == |b| ==> a == b)
  {
    if x :| x in a {
      SubsetSize(a - {x}, b - {x});
    }
  }

  // There is no free address exactly when all 253 are taken.
  lemma ExhaustedAt253(taken: set<string>, base: string)
    requires taken <= Pool(base, FIRST_OCTET)
    ensures |taken| <= 253
    ensures LeastFree(taken, base, FIRST_OCTET).None? <==> |taken| == 253
  {
    PoolSize(base, FIRST_OCTET);
    SubsetSize(taken, Pool(base, FIRST_OCTET));
    LeastFreeIsLeast(taken, base, FIRST_OCTET);
    if LeastFree(taken, base, FIRST_OCTET).None? {
      assert Pool(base, FIRST_OCTET) <= taken;
      assert taken == Pool(base, FIRST_OCTET);
    }
  }

  // ---------------------------------------------------------------- the subnet

  // The base of a pool: the first three bytes of the subnet's network address.
  function BaseOf(net: Ip4): string {
    Decimal(net.a) + ("." + (Decimal(net.b) + ("." + Decimal(net.c))))
  }

  // Pool addresses are dotted quads, so a packet's destination can name them.
  lemma PoolIsDotted(net: Ip4, octet: Byte)
    ensures InPool(BaseOf(net), octet) == Render(net.(d := octet))
  {
    var a, b, c, d := Decimal(net.a), Decimal(net.b), Decimal(net.c), Decimal(octet);
    calc {
      (a + ("." + (b + ("." + c)))) + "." + d;
      (a + ("." + (b + ("." + c)))) + ("." + d);
      a + ("." + (b + ("." + (c + ("." + d)))));
    }
  }

  // The whole pool lies inside the subnet exactly when the prefix is /24 or shorter.
  lemma PoolFitsSubnet(net: Ip4, ones: nat)
    requires ones <= 32
    ensures ones <= 24 <==>
      forall o: Byte :: FIRST_OCTET <= o <= LAST_OCTET ==> Routes.Covers(net, ones, net.(d := o))
  {
    if ones <= 24 {
      forall o: Byte, j: nat | j < ones
        ensures Routes.AddressBit(net, j) == Routes.AddressBit(net.(d := o), j)
      {
        assert j / 8 < 3;
      }
    } else {
      var low, high := net.(d := 2), net.(d := 254);
      assert !Routes.AddressBit(low, 24) && Routes.AddressBit(high, 24);
      if Routes.Covers(net, ones, low) && Routes.Covers(net, ones, high) { assert false; }
    }
  }

  // ---------------------------------------------------------------- the table

  class Client {
    const name: string
    const ip: string
    var queue: seq<Bytes>
    var dead: bool
    var bytesIn: nat
    var bytesOut: nat

    constructor (name: string, ip: string)
      ensures this.name == name && this.ip == ip
      ensures queue == [] && !dead && bytesIn == 0 && bytesOut == 0
    {
      this.name, this.ip, queue, dead, bytesIn, bytesOut := name, ip, [], false, 0, 0;
    }
  }

  class ClientRegistry {
    var clients: map<string, Client>
    const base: string

    ghost predicate Valid()
      reads this
    {
      clients.Keys <= Pool(base, FIRST_OCTET) && forall ip <- clients :: clients[ip].ip == ip
    }

    constructor (base: string)
      ensures Valid() && clients == map[] && this.base == base
    {
      clients, this.base := map[], base;
    }

    // The counter is a uint8: that it never passes 255 is what ends the loop.
    method Assign(name: string) returns (c: Client?)
      requires Valid()
      modifies this
      ensures Valid()
      ensures c == null <==> |old(clients)| == 253
      ensures c == null ==> clients == old(clients)
      ensures c != null ==>
        && fresh(c) && c.name == name && c.queue == [] && !c.dead && c.bytesIn == c.bytesOut == 0
        && clients == old(clients)[c.ip := c] && c.ip !in old(clients)
        && exists o :: 2 <= o <= 254 && c.ip == InPool(base, o) &&
                       forall p :: 2 <= p < o ==> InPool(base, p) in old(clients)
    {
      var ip := "";
      var octet: Octet := 2;
      LeastFreeIsLeast(clients.Keys, base, FIRST_OCTET);
      ExhaustedAt253(clients.Keys, base);
      while octet <= 254
        invariant 2 <= octet <= 255
        invariant LeastFree(clients.Keys, base, FIRST_OCTET) == LeastFree(clients.Keys, base, octet as nat)
      {
        var candidate := InPool(base, octet as nat);
        if candidate !in clients {
          ip := candidate;
          break;
        }
        octet := octet + 1;
      }
      if ip == "" { return null; }
      c := new Client(name, ip);
      clients := clients[ip := c];
    }

    method GetByIP(ip: string) returns (c: Client?)
      ensures c == if ip in clients then clients[ip] else null
    {
      return if ip in clients then clients[ip] else null;
    }

    method Remove(ip: string)
      requires Valid()
      modifies this
      ensures Valid() && clients == old(clients) - {ip}
    {
      clients := clients - {ip};
    }
  }
}
