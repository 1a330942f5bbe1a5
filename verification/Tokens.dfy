/** The token store. Only hashes are kept; `hash` stands for SHA-256 and is
    assumed to be free of collisions where a lemma says so. */
module Tokens {
  import opened Bytes

  type Time = int
  type Hash = string

  datatype Token = Token(name: string, hash: Hash, expiresAt: Option<Time>, oneTime: bool, used: bool)

  datatype Verdict = Valid(name: string) | AlreadyUsed | Expired | Unknown

  // ---------------------------------------------------------------- what the procedures do

  // The first position whose entry has the hash, or the length of the list.
  function Find(ts: seq<Token>, h: Hash): (i: nat)
    ensures i <= |ts| && (i < |ts| ==> ts[i].hash == h)
    ensures forall j :: 0 <= j < i ==> ts[j].hash != h
  {
    if ts == [] || ts[0].hash == h then 0 else Find(ts[1..], h) + 1
  }

  function FindName(ts: seq<Token>, name: string): (i: nat)
    ensures i <= |ts| && (i < |ts| ==> ts[i].name == name)
    ensures forall j :: 0 <= j < i ==> ts[j].name != name
  {
    if ts == [] || ts[0].name == name then 0 else FindName(ts[1..], name) + 1
  }

  predicate Spent(t: Token) {
    t.oneTime && t.used
  }

  // An expiry is still valid at its own instant.
  predicate Late(t: Token, now: Time) {
    t.expiresAt.Some? && now > t.expiresAt.value
  }

  function Check(ts: seq<Token>, h: Hash, now: Time): Verdict {
    var i := Find(ts, h);
    if i == |ts| then Unknown
    else if Spent(ts[i]) then AlreadyUsed
    else if Late(ts[i], now) then Expired
    else Valid(ts[i].name)
  }

  function AfterCheck(ts: seq<Token>, h: Hash, now: Time): seq<Token> {
    var i := Find(ts, h);
    if Check(ts, h, now).Valid? && ts[i].oneTime then ts[i := ts[i].(used := true)] else ts
  }

  function AfterRevoke(ts: seq<Token>, name: string): seq<Token> {
    var i := FindName(ts, name);
    if i < |ts| then ts[..i] + ts[i + 1..] else ts
  }

  // Entry i is the one that answers for the hash.
  ghost predicate FirstOf(ts: seq<Token>, i: int, h: Hash)
    requires 0 <= i < |ts|
  {
    ts[i].hash == h && forall j :: 0 <= j < i ==> ts[j].hash != h
  }

  predicate Alive(t: Token, now: Time) {
    !(t.oneTime && t.used) && (t.expiresAt.Some? ==> now <= t.expiresAt.value)
  }

  class Manager {
    var tokens: seq<Token>
    const hash: string -> Hash

    constructor (hash: string -> Hash)
      ensures tokens == [] && this.hash == hash
    {
      tokens := [];
      this.hash := hash;
    }

    // `raw` is the random string the caller gets back.
    method Add(raw: string, name: string, expiresAt: Option<Time>, oneTime: bool)
      modifies this
      ensures tokens == Apply(old(tokens), Event.Add(hash(raw), name, expiresAt, oneTime))
      ensures (forall t <- old(tokens) :: t.hash != hash(raw)) ==>
        forall now: Time :: Check(tokens, hash(raw), now) ==
          if expiresAt.Some? && now > expiresAt.value then Expired else Valid(name)
      ensures forall h: Hash, now: Time :: h != hash(raw) ==> Check(tokens, h, now) == Check(old(tokens), h, now)
    {
      var t := Token(name, hash(raw), expiresAt, oneTime, false);
      FindAppended(tokens, t);
      tokens := tokens + [t];
    }

    method Validate(raw: string, now: Time) returns (v: Verdict)
      modifies this
      ensures v == Check(old(tokens), hash(raw), now)
      ensures tokens == AfterCheck(old(tokens), hash(raw), now)
      ensures v.Valid? <==>
        exists i :: 0 <= i < |old(tokens)| && FirstOf(old(tokens), i, hash(raw)) && Alive(old(tokens)[i], now)
      ensures forall i :: 0 <= i < |old(tokens)| && v.Valid? && FirstOf(old(tokens), i, hash(raw)) ==>
        v.name == old(tokens)[i].name
      ensures |tokens| == |old(tokens)|
      ensures forall i :: 0 <= i < |tokens| ==>
        tokens[i] == if v.Valid? && FirstOf(old(tokens), i, hash(raw)) && old(tokens)[i].oneTime
                     then old(tokens)[i].(used := true) else old(tokens)[i]
    {
      var h := hash(raw);
      for i := 0 to |tokens|
        invariant tokens == old(tokens)
        invariant forall j :: 0 <= j < i ==> tokens[j].hash != h
      {
        var t := tokens[i];
        if t.hash != h { continue; }
        if t.oneTime && t.used { return AlreadyUsed; }
        if t.expiresAt.Some? && now > t.expiresAt.value { return Expired; }
        if t.oneTime { tokens := tokens[i := t.(used := true)]; }
        return Valid(t.name);
      }
      return Unknown;
    }

    method Revoke(name: string) returns (found: bool)
      modifies this
      ensures found <==> exists t <- old(tokens) :: t.name == name
      ensures tokens == AfterRevoke(old(tokens), name)
      ensures !found ==> tokens == old(tokens)
      ensures forall i ::
        && 0 <= i < |old(tokens)| && old(tokens)[i].name == name
        && (forall j :: 0 <= j < i ==> old(tokens)[j].name != name)
        ==> tokens == old(tokens)[..i] + old(tokens)[i + 1..]
    {
      for i := 0 to |tokens|
        invariant tokens == old(tokens)
        invariant forall j :: 0 <= j < i ==> tokens[j].name != name
      {
        if tokens[i].name == name {
          assert tokens[i] in old(tokens);
          tokens := tokens[..i] + tokens[i + 1..];
          return true;
        }
      }
      return false;
    }

    // The caller gets an array of its own.
    method List() returns (out: array<Token>)
      ensures fresh(out) && out[..] == tokens
    {
      out := new Token[|tokens|](_ => Token("", "", None, false, false));
      forall i | 0 <= i < |tokens| {
        out[i] := tokens[i];
      }
    }
  }

  // An appended entry is found by its own hash unless an earlier one has it, and
  // is in nobody else's way.
  lemma {:induction false} FindAppended(ts: seq<Token>, t: Token)
    ensures forall h: Hash :: h != t.hash ==>
      Find(ts + [t], h) == if Find(ts, h) < |ts| then Find(ts, h) else |ts| + 1
    ensures (forall u <- ts :: u.hash != t.hash) ==> Find(ts + [t], t.hash) == |ts|
  {
    if ts == [] {
      assert [] + [t] == [t] && [t][1..] == [];
    } else {
      assert (ts + [t])[1..] == ts[1..] + [t];
      FindAppended(ts[1..], t);
    }
  }

  // ---------------------------------------------------------------- runs

  datatype Event =
    | Add(hash: Hash, name: string, expiresAt: Option<Time>, oneTime: bool)
    | Validate(hash: Hash, now: Time)
    | Revoke(name: string)
    | List

  function Apply(ts: seq<Token>, e: Event): seq<Token> {
    match e
    case Add(h, name, expiresAt, oneTime) => ts + [Token(name, h, expiresAt, oneTime, false)]
    case Validate(h, now) => AfterCheck(ts, h, now)
    case Revoke(name) => AfterRevoke(ts, name)
    case List => ts
  }

  // How often the run accepts a hash.
  function Accepted(ts: seq<Token>, events: seq<Event>, h: Hash): nat
    decreases events
  {
    if events == [] then 0
    else
      (if events[0].Validate? && events[0].hash == h && Check(ts, h, events[0].now).Valid? then 1 else 0) +
      Accepted(Apply(ts, events[0]), events[1..], h)
  }

  // The calls as they come, with raw tokens.
  datatype Call =
    | AddToken(raw: string, name: string, expiresAt: Option<Time>, oneTime: bool)
    | Present(raw: string, now: Time)
    | RevokeName(name: string)
    | ListTokens

  function Hashed(hash: string -> Hash, c: Call): Event {
    match c
    case AddToken(raw, name, expiresAt, oneTime) => Event.Add(hash(raw), name, expiresAt, oneTime)
    case Present(raw, now) => Event.Validate(hash(raw), now)
    case RevokeName(name) => Event.Revoke(name)
    case ListTokens => Event.List
  }

  function AllHashed(hash: string -> Hash, calls: seq<Call>): seq<Event> {
    if calls == [] then [] else [Hashed(hash, calls[0])] + AllHashed(hash, calls[1..])
  }

  // The store goes through any sequence of calls as the run does, so what is
  // proved of runs is true of the store.
  method Replay(m: Manager, calls: seq<Call>, raw: string) returns (accepted: nat)
    modifies m
    ensures accepted == Accepted(old(m.tokens), AllHashed(m.hash, calls), m.hash(raw))
  {
    accepted := 0;
    var h := m.hash(raw);
    for i := 0 to |calls|
      invariant Accepted(old(m.tokens), AllHashed(m.hash, calls), h) ==
                accepted + Accepted(m.tokens, AllHashed(m.hash, calls[i..]), h)
    {
      var c := calls[i];
      assert calls[i..][0] == c && calls[i..][1..] == calls[i + 1..];
      ghost var rest := AllHashed(m.hash, calls[i + 1..]);
      assert AllHashed(m.hash, calls[i..]) == [Hashed(m.hash, c)] + rest;
      assert ([Hashed(m.hash, c)] + rest)[1..] == rest;
      match c {
        case AddToken(r, name, expiresAt, oneTime) => m.Add(r, name, expiresAt, oneTime);
        case Present(r, now) =>
          var v := m.Validate(r, now);
          if m.hash(r) == h && v.Valid? { accepted := accepted + 1; }
        case RevokeName(name) => var found := m.Revoke(name);
        case ListTokens => var out := m.List();
      }
    }
  }

  // What the run answers to each presentation of a hash, in order.
  function Verdicts(ts: seq<Token>, events: seq<Event>, h: Hash): seq<Verdict>
    decreases events
  {
    if events == [] then []
    else
      (if events[0].Validate? && events[0].hash == h then [Check(ts, h, events[0].now)] else []) +
      Verdicts(Apply(ts, events[0]), events[1..], h)
  }

  // The clock does not run backwards, from `now` on.
  ghost predicate Clocked(events: seq<Event>, now: Time) {
    events == [] ||
    if events[0].Validate? then now <= events[0].now && Clocked(events[1..], events[0].now)
    else Clocked(events[1..], now)
  }

  // No token with this hash is created: raw tokens are random and hashes do not collide.
  ghost predicate NotAdded(events: seq<Event>, h: Hash) {
    forall e <- events :: e.Add? ==> e.hash != h
  }

  ghost predicate DistinctHashes(ts: seq<Token>) {
    forall i, j :: 0 <= i < j < |ts| ==> ts[i].hash != ts[j].hash
  }

  // A hash is accepted exactly when its entry is neither spent nor late.
  lemma AcceptedExactlyWhenAlive(ts: seq<Token>, h: Hash, now: Time)
    requires DistinctHashes(ts)
    ensures Check(ts, h, now).Valid? <==> exists t <- ts :: t.hash == h && !Spent(t) && !Late(t, now)
  {
    var i := Find(ts, h);
    if i < |ts| { assert ts[i] in ts; }
    if t :| t in ts && t.hash == h {
      var j :| 0 <= j < |ts| && ts[j] == t;
      assert j == i;
    }
  }

  // ---------------------------------------------------------------- dead tokens stay dead

  // No entry of the hash can ever be accepted again.
  ghost predicate Dead(ts: seq<Token>, h: Hash, now: Time) {
    forall t <- ts :: t.hash == h ==> Spent(t) || Late(t, now)
  }

  lemma DeadIsRefused(ts: seq<Token>, h: Hash, now: Time)
    requires Dead(ts, h, now)
    ensures !Check(ts, h, now).Valid?
  {
    var i := Find(ts, h);
    if i < |ts| { assert ts[i] in ts; }
  }

  lemma DeadStaysDead(ts: seq<Token>, e: Event, h: Hash, now: Time, later: Time)
    requires Dead(ts, h, now) && now <= later && (e.Add? ==> e.hash != h)
    ensures Dead(Apply(ts, e), h, later)
  {
    forall t <- Apply(ts, e) | t.hash == h ensures Spent(t) || Late(t, later) {
      if t !in ts {
        assert e.Validate?;
        var i := Find(ts, e.hash);
        assert ts[i] in ts && t == ts[i].(used := true);
      }
    }
  }

  // Once a token is dead, no later call of any kind brings it back.
  lemma {:induction false} DeadForever(ts: seq<Token>, events: seq<Event>, h: Hash, now: Time)
    requires Dead(ts, h, now) && Clocked(events, now) && NotAdded(events, h)
    ensures Accepted(ts, events, h) == 0
    decreases events
  {
    if events != [] {
      var e := events[0];
      assert e in events;
      var later := if e.Validate? then e.now else now;
      assert Dead(ts, h, later);
      DeadIsRefused(ts, h, later);
      DeadStaysDead(ts, e, h, now, later);
      DeadForever(Apply(ts, e), events[1..], h, later);
    }
  }

  // A one-time token is dead after its first use.
  lemma UseKills(ts: seq<Token>, h: Hash, now: Time)
    requires DistinctHashes(ts) && Check(ts, h, now).Valid? && ts[Find(ts, h)].oneTime
    ensures Dead(AfterCheck(ts, h, now), h, now)
  {
    var i, ts' := Find(ts, h), AfterCheck(ts, h, now);
    forall t <- ts' | t.hash == h ensures Spent(t) {
      var j :| 0 <= j < |ts'| && ts'[j] == t;
      assert j == i;
    }
  }

  // The only entry of its hash, on the way through a run.
  ghost predicate OneTimeEntry(ts: seq<Token>, h: Hash) {
    forall t <- ts :: t.hash == h ==> t.oneTime
  }

  // However many calls a run makes, it accepts a one-time token at most once.
  lemma {:induction false} OneTimeMeansOnce(ts: seq<Token>, events: seq<Event>, h: Hash, now: Time)
    requires DistinctHashes(ts) && OneTimeEntry(ts, h)
    requires Clocked(events, now) && NotAdded(events, h) && FreshAdds(ts, events)
    ensures Accepted(ts, events, h) <= 1
    decreases events
  {
    if events != [] {
      var e := events[0];
      assert e in events;
      var later := if e.Validate? then e.now else now;
      StaysDistinct(ts, e);
      if e.Validate? && e.hash == h && Check(ts, h, later).Valid? {
        assert ts[Find(ts, h)] in ts;
        UseKills(ts, h, later);
        DeadForever(Apply(ts, e), events[1..], h, later);
      } else {
        StaysOneTime(ts, e, h);
        OneTimeMeansOnce(Apply(ts, e), events[1..], h, later);
      }
    }
  }

  // Every Add brings a hash the list does not hold.
  ghost predicate FreshAdds(ts: seq<Token>, events: seq<Event>)
    decreases events
  {
    events == [] ||
    ((events[0].Add? ==> forall t <- ts :: t.hash != events[0].hash) && FreshAdds(Apply(ts, events[0]), events[1..]))
  }

  lemma StaysDistinct(ts: seq<Token>, e: Event)
    requires DistinctHashes(ts) && (e.Add? ==> forall t <- ts :: t.hash != e.hash)
    ensures DistinctHashes(Apply(ts, e))
  {
    if e.Add? { assert forall i :: 0 <= i < |ts| ==> ts[i] in ts; }
  }

  lemma StaysOneTime(ts: seq<Token>, e: Event, h: Hash)
    requires OneTimeEntry(ts, h) && (e.Add? ==> e.hash != h)
    ensures OneTimeEntry(Apply(ts, e), h)
  {
    forall t <- Apply(ts, e) | t.hash == h ensures t.oneTime {
      if t !in ts {
        var i := Find(ts, e.hash);
        assert ts[i] in ts && t == ts[i].(used := true);
      }
    }
  }

  // After its expiry a token is never accepted.
  lemma NeverAfterExpiry(ts: seq<Token>, events: seq<Event>, h: Hash, now: Time)
    requires forall t <- ts :: t.hash == h ==> t.expiresAt.Some? && now > t.expiresAt.value
    requires Clocked(events, now) && NotAdded(events, h)
    ensures Accepted(ts, events, h) == 0
  {
    DeadForever(ts, events, h, now);
  }

  // After Revoke has removed it, a token is never accepted.
  lemma NeverAfterRevoke(ts: seq<Token>, events: seq<Event>, name: string, now: Time)
    requires DistinctHashes(ts) && FindName(ts, name) < |ts|
    requires Clocked(events, now) && NotAdded(events, ts[FindName(ts, name)].hash)
    ensures Accepted(AfterRevoke(ts, name), events, ts[FindName(ts, name)].hash) == 0
  {
    var i, ts' := FindName(ts, name), AfterRevoke(ts, name);
    forall t <- ts' ensures t.hash != ts[i].hash {
      var j :| 0 <= j < |ts'| && ts'[j] == t;
      assert t == if j < i then ts[j] else ts[j + 1];
    }
    DeadForever(ts', events, ts[i].hash, now);
  }

  // ---------------------------------------------------------------- how often a token is accepted

  // How often a run presents the hash no later than its expiry.
  function Timely(events: seq<Event>, h: Hash, expiresAt: Option<Time>): nat {
    if events == [] then 0
    else
      var e := events[0];
      (if e.Validate? && e.hash == h && (expiresAt.Some? ==> e.now <= expiresAt.value) then 1 else 0) +
      Timely(events[1..], h, expiresAt)
  }

  // What is left of a token's uses: all of a reusable one, one of a fresh
  // one-time one.
  function Uses(t: Token, timely: nat): nat {
    if !t.oneTime then timely else if t.used || timely == 0 then 0 else 1
  }

  lemma EntryFound(ts: seq<Token>, t: Token)
    requires DistinctHashes(ts) && t in ts
    ensures Find(ts, t.hash) < |ts| && ts[Find(ts, t.hash)] == t
  {
    var j :| 0 <= j < |ts| && ts[j] == t;
  }

  // What a call makes of an entry whose name it does not revoke.
  lemma EntryAfter(ts: seq<Token>, e: Event, t: Token)
    requires DistinctHashes(ts) && t in ts && e != Revoke(t.name)
    ensures
      var spends := e.Validate? && e.hash == t.hash && t.oneTime && Alive(t, e.now);
      (if spends then t.(used := true) else t) in Apply(ts, e)
  {
    EntryFound(ts, t);
    var j := Find(ts, t.hash);
    var ts' := Apply(ts, e);
    if e.Validate? {
      assert ts'[j] in ts';
    } else if e.Revoke? {
      var i := FindName(ts, e.name);
      if i < |ts| { assert ts'[if j < i then j else j - 1] == t; }
    }
  }

  // Exactly: as long as its name is not revoked, a reusable token is accepted each
  // time it is presented in time, and a one-time token the first time.
  lemma {:induction false} AcceptedAsPresented(ts: seq<Token>, events: seq<Event>, t: Token)
    requires DistinctHashes(ts) && t in ts && FreshAdds(ts, events) && Revoke(t.name) !in events
    ensures Accepted(ts, events, t.hash) == Uses(t, Timely(events, t.hash, t.expiresAt))
    decreases events
  {
    if events != [] {
      var e := events[0];
      assert e in events;
      EntryFound(ts, t);
      EntryAfter(ts, e, t);
      StaysDistinct(ts, e);
      var spends := e.Validate? && e.hash == t.hash && t.oneTime && Alive(t, e.now);
      hide AfterCheck, AfterRevoke, DistinctHashes, FreshAdds;
      assert FreshAdds(Apply(ts, e), events[1..]) by { FreshAddsOn(ts, events); }
      AcceptedAsPresented(Apply(ts, e), events[1..], if spends then t.(used := true) else t);
    }
  }

  lemma FreshAddsOn(ts: seq<Token>, events: seq<Event>)
    requires FreshAdds(ts, events) && events != []
    ensures FreshAdds(Apply(ts, events[0]), events[1..])
  {
  }

  // From Add on: a new token is accepted as often as that says, and no oftener.
  lemma TokenLife(ts: seq<Token>, add: Event, events: seq<Event>)
    requires add.Add? && DistinctHashes(ts) && forall t <- ts :: t.hash != add.hash
    requires FreshAdds(Apply(ts, add), events) && Revoke(add.name) !in events
    ensures
      var timely := Timely(events, add.hash, add.expiresAt);
      Accepted(Apply(ts, add), events, add.hash) == if add.oneTime && timely > 0 then 1 else timely
  {
    StaysDistinct(ts, add);
    AcceptedAsPresented(Apply(ts, add), events, Token(add.name, add.hash, add.expiresAt, add.oneTime, false));
  }

  // ---------------------------------------------------------------- Revoke touches one entry

  function Without(ts: seq<Token>, h: Hash): seq<Token> {
    if ts == [] then []
    else if ts[0].hash == h then Without(ts[1..], h)
    else [ts[0]] + Without(ts[1..], h)
  }

  lemma {:induction false} WithoutAbsent(ts: seq<Token>, h: Hash)
    requires forall t <- ts :: t.hash != h
    ensures Without(ts, h) == ts
  {
    if ts != [] {
      assert ts[0] in ts;
      WithoutAbsent(ts[1..], h);
      assert ts == [ts[0]] + ts[1..];
    }
  }

  // Revoke drops exactly the first entry of the name; the rest keep their order.
  lemma {:induction false} RevokeDropsOne(ts: seq<Token>, name: string)
    requires DistinctHashes(ts) && FindName(ts, name) < |ts|
    ensures AfterRevoke(ts, name) == Without(ts, ts[FindName(ts, name)].hash)
    ensures |AfterRevoke(ts, name)| == |ts| - 1
  {
    var i := FindName(ts, name);
    if ts[0].name == name {
      forall t <- ts[1..] ensures t.hash != ts[0].hash {
        var j :| 0 <= j < |ts| - 1 && ts[1..][j] == t;
        assert ts[j + 1] == t;
      }
      WithoutAbsent(ts[1..], ts[0].hash);
      assert AfterRevoke(ts, name) == ts[1..];
    } else {
      RevokeDropsOne(ts[1..], name);
      assert ts[i] == ts[1..][i - 1];
      assert AfterRevoke(ts, name) == [ts[0]] + AfterRevoke(ts[1..], name);
    }
  }

  lemma {:induction false} CheckWithout(ts: seq<Token>, h: Hash, other: Hash, now: Time)
    requires h != other
    ensures Check(Without(ts, h), other, now) == Check(ts, other, now)
    ensures AfterCheck(Without(ts, h), other, now) == Without(AfterCheck(ts, other, now), h)
  {
    if ts != [] && ts[0].hash != other {
      CheckWithout(ts[1..], h, other, now);
      CheckSkipsFirst(ts, other, now);
      WithoutFirst(ts[0], AfterCheck(ts[1..], other, now), h);
      WithoutFirst(ts[0], ts[1..], h);
      assert [ts[0]] + ts[1..] == ts;
      if ts[0].hash != h {
        assert ([ts[0]] + Without(ts[1..], h))[1..] == Without(ts[1..], h);
        CheckSkipsFirst(Without(ts, h), other, now);
      }
      hide Check, AfterCheck, Without;
    } else if ts != [] {
      assert Without(ts, h)[0] == ts[0];
      assert AfterCheck(ts, other, now)[1..] == ts[1..];
    }
  }

  lemma CheckSkipsFirst(ts: seq<Token>, h: Hash, now: Time)
    requires ts != [] && ts[0].hash != h
    ensures Check(ts, h, now) == Check(ts[1..], h, now)
    ensures AfterCheck(ts, h, now) == [ts[0]] + AfterCheck(ts[1..], h, now)
  {
  }

  lemma {:induction false} WithoutAppend(ts: seq<Token>, t: Token, h: Hash)
    requires t.hash != h
    ensures Without(ts + [t], h) == Without(ts, h) + [t]
  {
    if ts != [] {
      assert (ts + [t])[1..] == ts[1..] + [t];
      WithoutAppend(ts[1..], t, h);
    } else {
      WithoutAbsent([t], h);
    }
  }

  lemma {:induction false} WithoutItself(ts: seq<Token>, h: Hash, now: Time)
    ensures Without(AfterCheck(ts, h, now), h) == Without(ts, h)
    ensures AfterCheck(Without(ts, h), h, now) == Without(ts, h)
  {
    if ts != [] {
      WithoutItself(ts[1..], h, now);
      if ts[0].hash != h {
        CheckSkipsFirst(ts, h, now);
        assert ([ts[0]] + Without(ts[1..], h))[1..] == Without(ts[1..], h);
        CheckSkipsFirst(Without(ts, h), h, now);
      } else {
        assert AfterCheck(ts, h, now)[1..] == ts[1..];
      }
    }
  }

  lemma {:induction false} RevokeWithout(ts: seq<Token>, h: Hash, name: string)
    requires forall t <- ts :: t.hash == h ==> t.name != name
    ensures Without(AfterRevoke(ts, name), h) == AfterRevoke(Without(ts, h), name)
  {
    if ts != [] {
      assert ts[0] in ts;
      RevokeWithout(ts[1..], h, name);
      RevokeFirst(ts, name);
      if ts[0].hash != h {
        assert Without(ts, h)[0] == ts[0] && Without(ts, h)[1..] == Without(ts[1..], h);
        RevokeFirst(Without(ts, h), name);
        if ts[0].name != name {
          WithoutFirst(ts[0], AfterRevoke(ts[1..], name), h);
        }
      } else {
        WithoutFirst(ts[0], AfterRevoke(ts[1..], name), h);
      }
    }
  }

  lemma WithoutFirst(t: Token, ts: seq<Token>, h: Hash)
    ensures Without([t] + ts, h) == if t.hash == h then Without(ts, h) else [t] + Without(ts, h)
  {
    assert ([t] + ts)[1..] == ts;
  }

  lemma RevokeFirst(ts: seq<Token>, name: string)
    requires ts != []
    ensures ts[0].name == name ==> AfterRevoke(ts, name) == ts[1..]
    ensures ts[0].name != name ==> AfterRevoke(ts, name) == [ts[0]] + AfterRevoke(ts[1..], name)
  {
    var i := FindName(ts, name);
    assert ts == [ts[0]] + ts[1..];
    if ts[0].name != name {
      assert i == FindName(ts[1..], name) + 1;
      if i < |ts| { CutFirst(ts, i); }
    }
  }

  lemma CutFirst(ts: seq<Token>, i: nat)
    requires 0 < i < |ts|
    ensures ts[..i] + ts[i + 1..] == [ts[0]] + (ts[1..][..i - 1] + ts[1..][i..])
  {
  }

  lemma StepWithout(ts: seq<Token>, e: Event, h: Hash, name: string)
    requires forall t <- ts :: t.hash == h ==> t.name == name
    requires (e.Add? ==> e.hash != h) && e != Revoke(name)
    ensures Without(Apply(ts, e), h) == Apply(Without(ts, h), e)
    ensures forall t <- Apply(ts, e) :: t.hash == h ==> t.name == name
  {
    match e {
      case Add(g, n, x, o) => WithoutAppend(ts, Token(n, g, x, o, false), h);
      case Validate(g, now) =>
        if g == h { WithoutItself(ts, h, now); } else { CheckWithout(ts, h, g, now); }
        var i := Find(ts, g);
        if i < |ts| { assert ts[i] in ts; }
      case Revoke(n) => RevokeWithout(ts, h, n);
      case List =>
    }
  }

  lemma {:induction false} RunWithout(ts: seq<Token>, events: seq<Event>, h: Hash, name: string, other: Hash)
    requires forall t <- ts :: t.hash == h ==> t.name == name
    requires NotAdded(events, h) && Revoke(name) !in events && other != h
    ensures Verdicts(Without(ts, h), events, other) == Verdicts(ts, events, other)
    decreases events
  {
    if events != [] {
      var e := events[0];
      assert e in events;
      StepWithout(ts, e, h, name);
      if e.Validate? { CheckWithout(ts, h, other, e.now); }
      RunWithout(Apply(ts, e), events[1..], h, name, other);
    }
  }

  // Revoking one token changes no later answer about any other token.
  lemma RevokeSparesTheOthers(ts: seq<Token>, events: seq<Event>, name: string, other: Hash)
    requires DistinctHashes(ts) && FindName(ts, name) < |ts|
    requires other != ts[FindName(ts, name)].hash
    requires NotAdded(events, ts[FindName(ts, name)].hash) && Revoke(name) !in events
    ensures Verdicts(AfterRevoke(ts, name), events, other) == Verdicts(ts, events, other)
  {
    var i := FindName(ts, name);
    RevokeDropsOne(ts, name);
    forall t <- ts | t.hash == ts[i].hash ensures t.name == name {
      var j :| 0 <= j < |ts| && ts[j] == t;
      assert j == i;
    }
    RunWithout(ts, events, ts[i].hash, name, other);
  }

  // ---------------------------------------------------------------- a name revoked twice

  // The entries of all other names.
  function OtherNames(ts: seq<Token>, name: string): (r: seq<Token>)
    ensures forall t <- r :: t in ts
  {
    if ts == [] then []
    else if ts[0].name == name then OtherNames(ts[1..], name)
    else [ts[0]] + OtherNames(ts[1..], name)
  }

  lemma OtherNamesFirst(t: Token, ts: seq<Token>, name: string)
    ensures OtherNames([t] + ts, name) == if t.name == name then OtherNames(ts, name) else [t] + OtherNames(ts, name)
  {
    assert ([t] + ts)[1..] == ts;
  }

  lemma {:induction false} OtherNamesAppend(ts: seq<Token>, t: Token, name: string)
    ensures OtherNames(ts + [t], name) == OtherNames(ts, name) + if t.name == name then [] else [t]
  {
    if ts == [] {
      OtherNamesFirst(t, [], name);
      assert [] + [t] == [t] + [];
    } else {
      assert (ts + [t])[1..] == ts[1..] + [t];
      OtherNamesAppend(ts[1..], t, name);
    }
  }

  lemma AbsentIsUnknown(ts: seq<Token>, h: Hash, now: Time)
    requires forall t <- ts :: t.hash != h
    ensures Check(ts, h, now) == Unknown && AfterCheck(ts, h, now) == ts
  {
    assert forall j :: 0 <= j < |ts| ==> ts[j] in ts;
  }

  // Checking the first entry's own hash: no later entry has it.
  lemma OtherNamesFound(t: Token, rest: seq<Token>, name: string, now: Time)
    requires forall u <- rest :: u.hash != t.hash
    ensures
      var ts := [t] + rest;
      && OtherNames(AfterCheck(ts, t.hash, now), name) == AfterCheck(OtherNames(ts, name), t.hash, now)
      && (t.name != name ==> Check(OtherNames(ts, name), t.hash, now) == Check(ts, t.hash, now))
  {
    var ts, kept := [t] + rest, OtherNames(rest, name);
    assert ts[1..] == rest;
    assert Find(ts, t.hash) == 0 && Find([t] + kept, t.hash) == 0;
    var t' := AfterCheck(ts, t.hash, now)[0];
    assert AfterCheck(ts, t.hash, now) == [t'] + rest;
    assert AfterCheck([t] + kept, t.hash, now) == [t'] + kept;
    AbsentIsUnknown(kept, t.hash, now);
    hide Find, Check, AfterCheck;
    OtherNamesFirst(t, rest, name);
    OtherNamesFirst(t', rest, name);
  }

  lemma {:induction false} OtherNamesCheck(ts: seq<Token>, name: string, h: Hash, now: Time)
    requires DistinctHashes(ts)
    ensures OtherNames(AfterCheck(ts, h, now), name) == AfterCheck(OtherNames(ts, name), h, now)
    ensures (forall t <- ts :: t.hash == h ==> t.name != name) ==>
      Check(OtherNames(ts, name), h, now) == Check(ts, h, now)
  {
    if ts != [] {
      var t, rest := ts[0], ts[1..];
      assert ts == [t] + rest && t in ts;
      if t.hash == h {
        assert forall i :: 0 <= i < |rest| ==> rest[i].hash != t.hash;
        hide DistinctHashes;
        OtherNamesFound(t, rest, name, now);
      } else {
        OtherNamesCheck(rest, name, h, now);
        hide DistinctHashes, Check, AfterCheck, OtherNames;
        var kept := OtherNames(rest, name);
        CheckSkipsFirst(ts, h, now);
        OtherNamesFirst(t, rest, name);
        OtherNamesFirst(t, AfterCheck(rest, h, now), name);
        assert ([t] + kept)[1..] == kept;
        if t.name != name { CheckSkipsFirst([t] + kept, h, now); }
      }
    } else {
      AbsentIsUnknown(ts, h, now);
    }
  }

  lemma {:induction false} OtherNamesRevoke(ts: seq<Token>, name: string, n: string)
    ensures OtherNames(AfterRevoke(ts, n), name) ==
      if n == name then OtherNames(ts, name) else AfterRevoke(OtherNames(ts, name), n)
  {
    if ts != [] {
      assert ts == [ts[0]] + ts[1..];
      var rest := OtherNames(ts[1..], name);
      RevokeFirst(ts, n);
      OtherNamesFirst(ts[0], ts[1..], name);
      OtherNamesRevoke(ts[1..], name, n);
      OtherNamesFirst(ts[0], AfterRevoke(ts[1..], n), name);
      assert ([ts[0]] + rest)[1..] == rest;
      if ts[0].name != name { RevokeFirst([ts[0]] + rest, n); }
    }
  }

  // Entries of other names do not notice what happens under this one.
  lemma OtherNamesStep(ts: seq<Token>, e: Event, name: string)
    requires DistinctHashes(ts)
    ensures OtherNames(Apply(ts, e), name) ==
      if e == Revoke(name) || (e.Add? && e.name == name) then OtherNames(ts, name) else Apply(OtherNames(ts, name), e)
  {
    match e {
      case Add(h, n, x, o) => OtherNamesAppend(ts, Token(n, h, x, o, false), name);
      case Validate(h, now) => OtherNamesCheck(ts, name, h, now);
      case Revoke(n) => OtherNamesRevoke(ts, name, n);
      case List =>
    }
  }

  lemma NameStays(ts: seq<Token>, e: Event, h: Hash, name: string)
    requires (forall t <- ts :: t.hash == h ==> t.name != name) && (e.Add? ==> e.hash != h)
    ensures forall t <- Apply(ts, e) :: t.hash == h ==> t.name != name
  {
    forall t <- Apply(ts, e) | t.hash == h ensures t.name != name {
      if t !in ts {
        var i := Find(ts, e.hash);
        assert ts[i] in ts && t == ts[i].(used := true);
      }
    }
  }

  lemma {:induction false} SameOtherNames(ts: seq<Token>, us: seq<Token>, events: seq<Event>, name: string, h: Hash)
    requires DistinctHashes(ts) && DistinctHashes(us) && OtherNames(ts, name) == OtherNames(us, name)
    requires (forall t <- ts :: t.hash == h ==> t.name != name) && (forall t <- us :: t.hash == h ==> t.name != name)
    requires NotAdded(events, h) && FreshAdds(ts, events) && FreshAdds(us, events)
    ensures Verdicts(ts, events, h) == Verdicts(us, events, h)
    decreases events
  {
    if events != [] {
      var e := events[0];
      assert e in events;
      OtherNamesStep(ts, e, name);
      OtherNamesStep(us, e, name);
      StaysDistinct(ts, e);
      StaysDistinct(us, e);
      NameStays(ts, e, h, name);
      NameStays(us, e, h, name);
      if e.Validate? {
        OtherNamesCheck(ts, name, h, e.now);
        OtherNamesCheck(us, name, h, e.now);
      }
      SameOtherNames(Apply(ts, e), Apply(us, e), events[1..], name, h);
    }
  }

  // n revocations of the name, then one look at the token.
  function RevokesThenCheck(name: string, n: nat, h: Hash): (events: seq<Event>)
    ensures forall e <- events :: !e.Add?
  {
    if n == 0 then [Validate(h, 0)] else [Revoke(name)] + RevokesThenCheck(name, n - 1, h)
  }

  lemma {:induction false} NoAddsAreFresh(ts: seq<Token>, events: seq<Event>)
    requires forall e <- events :: !e.Add?
    ensures FreshAdds(ts, events)
    decreases events
  {
    if events != [] {
      assert events[0] in events;
      NoAddsAreFresh(Apply(ts, events[0]), events[1..]);
    }
  }

  lemma RevokeKeepsDistinct(ts: seq<Token>, name: string)
    requires DistinctHashes(ts)
    ensures DistinctHashes(AfterRevoke(ts, name))
  {
    StaysDistinct(ts, Revoke(name));
  }

  lemma RevokesUnfold(ts: seq<Token>, name: string, n: nat, h: Hash)
    ensures Verdicts(ts, RevokesThenCheck(name, 0, h), h) == [Check(ts, h, 0)]
    ensures Verdicts(ts, RevokesThenCheck(name, n + 1, h), h) ==
      Verdicts(AfterRevoke(ts, name), RevokesThenCheck(name, n, h), h)
  {
    assert RevokesThenCheck(name, n + 1, h)[1..] == RevokesThenCheck(name, n, h);
    assert [Validate(h, 0)][1..] == [];
  }

  lemma PresentIsKnown(ts: seq<Token>, i: nat, now: Time)
    requires i < |ts|
    ensures Check(ts, ts[i].hash, now) != Unknown
  {
    var j := Find(ts, ts[i].hash);
    assert j <= i;
  }

  // A token is known until it is the first of its name that is revoked.
  lemma KnownUntilRevoked(ts: seq<Token>, name: string)
    requires DistinctHashes(ts) && FindName(ts, name) < |ts|
    ensures
      var h := ts[FindName(ts, name)].hash;
      Check(ts, h, 0) != Unknown && Check(AfterRevoke(ts, name), h, 0) == Unknown
  {
    hide Check, Find, AfterCheck;
    var i, us := FindName(ts, name), AfterRevoke(ts, name);
    forall t <- us ensures t.hash != ts[i].hash {
      var j :| 0 <= j < |us| && us[j] == t;
      assert t == if j < i then ts[j] else ts[j + 1];
    }
    AbsentIsUnknown(us, ts[i].hash, 0);
    PresentIsKnown(ts, i, 0);
  }

  lemma RevokeShifts(ts: seq<Token>, name: string, i: nat)
    requires FindName(ts, name) < i < |ts| && ts[i].name == name
    ensures |AfterRevoke(ts, name)| == |ts| - 1 && AfterRevoke(ts, name)[i - 1] == ts[i]
    ensures FindName(AfterRevoke(ts, name), name) <= i - 1
  {
  }

  // Two tokens of one name: once the first is revoked, the next revocations
  // reach the second one sooner.
  lemma {:induction false} RevokedTooEarly(ts: seq<Token>, name: string, i: nat) returns (n: nat)
    requires DistinctHashes(ts) && FindName(ts, name) < i < |ts| && ts[i].name == name
    ensures
      var events := RevokesThenCheck(name, n, ts[i].hash);
      Verdicts(AfterRevoke(ts, name), events, ts[i].hash) != Verdicts(ts, events, ts[i].hash)
    decreases i
  {
    hide AfterRevoke, DistinctHashes, RevokesThenCheck, Verdicts, Check;
    var us, h := AfterRevoke(ts, name), ts[i].hash;
    RevokeKeepsDistinct(ts, name);
    RevokeShifts(ts, name, i);
    if FindName(us, name) < i - 1 {
      var m := RevokedTooEarly(us, name, i - 1);
      n := m + 1;
      RevokesUnfold(ts, name, m, h);
      RevokesUnfold(us, name, m, h);
    } else {
      n := 1;
      KnownUntilRevoked(us, name);
      RevokesUnfold(ts, name, 0, h);
      RevokesUnfold(us, name, 0, h);
      RevokesUnfold(AfterRevoke(us, name), name, 0, h);
    }
  }

  // A run in which hashes do not collide.
  ghost predicate Fair(ts: seq<Token>, name: string, events: seq<Event>, h: Hash) {
    NotAdded(events, h) && FreshAdds(ts, events) && FreshAdds(AfterRevoke(ts, name), events)
  }

  // If the name may be revoked again later, revoking its first token leaves all
  // later answers about another token unchanged exactly when that one has
  // another name.
  lemma RevokeSparesOtherNames(ts: seq<Token>, name: string, other: Hash)
    requires DistinctHashes(ts) && FindName(ts, name) < |ts| && other != ts[FindName(ts, name)].hash
    ensures
      (forall events :: Fair(ts, name, events, other) ==>
         Verdicts(AfterRevoke(ts, name), events, other) == Verdicts(ts, events, other)) <==>
      forall t <- ts :: t.hash == other ==> t.name != name
  {
    RevokeKeepsDistinct(ts, name);
    if forall t <- ts :: t.hash == other ==> t.name != name {
      OtherNamesRevoke(ts, name, name);
      NameStays(ts, Revoke(name), other, name);
      forall events | Fair(ts, name, events, other)
        ensures Verdicts(AfterRevoke(ts, name), events, other) == Verdicts(ts, events, other)
      {
        SameOtherNames(AfterRevoke(ts, name), ts, events, name, other);
      }
    } else {
      var t :| t in ts && t.hash == other && t.name == name;
      var i :| 0 <= i < |ts| && ts[i] == t;
      var n := RevokedTooEarly(ts, name, i);
      var events := RevokesThenCheck(name, n, other);
      NoAddsAreFresh(ts, events);
      NoAddsAreFresh(AfterRevoke(ts, name), events);
      assert Fair(ts, name, events, other);
    }
  }
}
