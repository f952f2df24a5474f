/**
 The registry of UDP rendezvous candidates (ed2k/nattraversal.go): one entry per user
 hash with a slot per address family, an index from endpoint to hash, and a 32-bit
 millisecond clock that wraps.

 The class is proved against a map from (hash, family) to the last endpoint heard, with
 the true time it was heard and no index. The run theorem then removes the sweep and the
 wrap as well: what the registry answers is what a registry that never forgets and never
 wraps would.
 */
module NatRegistry {
  import opened Bytes

  // ---------------------------------------------------------------- addresses

  /** A user hash; nothing here looks inside one. */
  datatype Hash = Hash(bytes: seq<Byte>)

  type Port = p: int | 0 <= p < 0x1_0000

  /** A UDP source address as the socket reports it: 4 bytes, or 16, possibly IPv4-mapped. */
  datatype Remote = Remote(ip: seq<Byte>, port: Port) {
    predicate Valid() { |ip| == 4 || |ip| == 16 }
  }

  datatype Endpoint = Endpoint(ip: seq<Byte>, port: Port)

  /** The IPv4-mapped prefix (section 2.5.5.2 of RFC 4291). */
  const MAPPED: seq<Byte> := [0, 0, 0, 0, 0, 0, 0, 0, 0, 0, 0xff, 0xff]

  function To4(ip: seq<Byte>): Option<seq<Byte>> {
    if |ip| == 4 then Some(ip)
    else if |ip| == 16 && ip[..12] == MAPPED then Some(ip[12..])
    else None
  }

  predicate IsIPv6(r: Remote)
    requires r.Valid()
  {
    To4(r.ip).None?
  }

  function EndpointOf(r: Remote): Endpoint
    requires r.Valid()
  {
    Endpoint(if |r.ip| == 4 then MAPPED + r.ip else r.ip, r.port)
  }

  function UdpAddr(ep: Endpoint): Remote {
    var four := To4(ep.ip);
    Remote(if four.Some? then four.value else ep.ip, ep.port)
  }

  /** The family an endpoint belongs to, read off its key. */
  predicate InV6(ep: Endpoint) { To4(ep.ip).None? }

  /** Both spellings of one IPv4 meet on one key, the key tells the family, and the key gives the address back. */
  lemma EndpointFaithful(r: Remote, s: Remote)
    requires r.Valid() && s.Valid()
    ensures InV6(EndpointOf(r)) == IsIPv6(r)
    ensures var back := UdpAddr(EndpointOf(r));
            back.Valid() && EndpointOf(back) == EndpointOf(r) && IsIPv6(back) == IsIPv6(r)
    ensures EndpointOf(r) == EndpointOf(s) <==>
            r.port == s.port && To4(r.ip) == To4(s.ip) && (IsIPv6(r) ==> r.ip == s.ip)
  {
    forall q: Remote | q.Valid() ensures To4(q.ip).Some? <==> EndpointOf(q).ip[..12] == MAPPED
      ensures To4(q.ip).Some? ==> To4(q.ip).value == EndpointOf(q).ip[12..]
    {
      if |q.ip| == 4 { assert (MAPPED + q.ip)[..12] == MAPPED && (MAPPED + q.ip)[12..] == q.ip; }
    }
    var e, f := EndpointOf(r).ip, EndpointOf(s).ip;
    assert e == e[..12] + e[12..] && f == f[..12] + f[12..];
  }

  // ---------------------------------------------------------------- the clock

  const WRAP: nat := 0x1_0000_0000

  /** Milliseconds since the handler was made, as a slot stores them: 32 bits, never 0. */
  function Tick(now: nat): (r: nat)
    ensures 0 < r < WRAP
  {
    if now % WRAP == 0 then 1 else now % WRAP
  }

  function Age(now: nat, seen: nat): nat { (now - seen) % WRAP }

  /** Whether a slot written at `at` is younger than the TTL, by the wrapping clock. */
  predicate Live(ttl: nat, now: nat, at: nat) { Age(Tick(now), Tick(at)) < ttl }

  /** One millisecond of every wrap is counted twice, because 0 marks an empty slot. */
  function Skew(t: nat): int { if t % WRAP == 0 then 1 else 0 }

  /** The age an unbounded clock with the same skew would give. */
  function TrueAge(now: nat, at: nat): int { now - at + Skew(now) - Skew(at) }

  /** The wrapping age is the true one, within the skew, for anything heard less than a wrap ago. */
  lemma AgeIsTrue(now: nat, at: nat)
    requires at <= now && now - at + 1 - Skew(at) <= WRAP - 1
    ensures Age(Tick(now), Tick(at)) == TrueAge(now, at)
    ensures now - at - 1 <= TrueAge(now, at) <= now - at + 1
  {
    assert now == WRAP * (now / WRAP) + now % WRAP && at == WRAP * (at / WRAP) + at % WRAP;
    assert now / WRAP - at / WRAP == 0 || now / WRAP - at / WRAP == 1;
  }

  lemma TrueAgeGrows(now: nat, later: nat, at: nat)
    requires at <= now <= later
    ensures TrueAge(now, at) <= TrueAge(later, at)
  {
  }

  // ---------------------------------------------------------------- the reference

  datatype Key = Key(hash: Hash, v6: bool)

  /** The endpoint a hash was last heard at in a family, the socket it arrived on, and when. */
  datatype Cand = Cand(ep: Endpoint, sock: Byte, at: nat)

  type Cands = map<Key, Cand>

  ghost predicate Holds(cs: Cands, ep: Endpoint, k: Key) { k in cs && cs[k].ep == ep }

  /** Each endpoint has one holder. */
  ghost predicate Unique(cs: Cands) {
    forall k, j :: k in cs && j in cs && cs[k].ep == cs[j].ep ==> k == j
  }

  /** Each endpoint is held in its own family. */
  ghost predicate InFamily(cs: Cands) {
    forall k :: k in cs ==> k.v6 == InV6(cs[k].ep)
  }

  /** An endpoint is one socket: registering it takes it from whoever held it. */
  ghost function Registered(cs: Cands, k: Key, c: Cand): Cands {
    (map j | j in cs && cs[j].ep != c.ep :: cs[j])[k := c]
  }

  ghost function Swept(cs: Cands, ttl: nat, now: nat): Cands {
    map k | k in cs && Live(ttl, now, cs[k].at) :: cs[k]
  }

  ghost predicate HeardLive(cs: Cands, ttl: nat, ep: Endpoint, now: nat, k: Key) {
    Holds(cs, ep, k) && Live(ttl, now, cs[k].at)
  }

  /** A keepalive from `ep` refreshes its live holder and nothing else. */
  ghost function Touched(cs: Cands, ttl: nat, ep: Endpoint, sock: Byte, now: nat): Cands {
    if k :| HeardLive(cs, ttl, ep, now, k) then cs[k := Cand(ep, sock, now)] else cs
  }

  lemma TouchedIs(cs: Cands, ttl: nat, ep: Endpoint, sock: Byte, now: nat, k: Key)
    requires Unique(cs) && HeardLive(cs, ttl, ep, now, k)
    ensures Touched(cs, ttl, ep, sock, now) == cs[k := Cand(ep, sock, now)]
  {
  }

  // ---------------------------------------------------------------- the registry

  datatype Slot = Slot(ep: Endpoint, sock: Byte, seen: nat)

  const ZERO_ENDPOINT: Endpoint := Endpoint([0, 0, 0, 0, 0, 0, 0, 0, 0, 0, 0, 0, 0, 0, 0, 0], 0)
  const EMPTY: Slot := Slot(ZERO_ENDPOINT, 0, 0)

  datatype Entry = Entry(v4: Slot, v6: Slot, version: Byte) {
    function At(inV6: bool): Slot { if inV6 then v6 else v4 }
    function With(inV6: bool, s: Slot): Entry { if inV6 then this.(v6 := s) else this.(v4 := s) }
    predicate Blank() { v4.seen == 0 && v6.seen == 0 }
  }

  /** A live candidate as `get` hands it out. */
  datatype Candidate = Candidate(addr: Remote, lastSeen: int, sock: Byte)

  datatype Client = Client(hash: Hash, v4: Option<Candidate>, v6: Option<Candidate>, version: Byte)

  /** The filled slots of the registry, by hash and family. */
  type Slots = map<Key, Slot>

  function SlotOf(c: Cand): Slot { Slot(c.ep, c.sock, Tick(c.at)) }

  ghost function SlotsOf(cs: Cands): Slots { map k | k in cs :: SlotOf(cs[k]) }

  ghost function Read(ss: Slots, k: Key): Slot { if k in ss then ss[k] else EMPTY }

  ghost predicate Known(ss: Slots, h: Hash) { Key(h, false) in ss || Key(h, true) in ss }

  /** The entries hold exactly these slots, and no entry is empty. */
  ghost predicate Stores(es: map<Hash, Entry>, ss: Slots) {
    && (forall h :: h in es <==> Known(ss, h))
    && (forall h :: h in es ==> es[h].v4 == Read(ss, Key(h, false)) && es[h].v6 == Read(ss, Key(h, true)))
    && (forall k :: k in ss ==> ss[k].seen != 0)
  }

  ghost predicate SlotHolds(ss: Slots, ep: Endpoint, k: Key) { k in ss && ss[k].ep == ep }

  ghost predicate HeldBy(ss: Slots, ep: Endpoint, h: Hash) {
    SlotHolds(ss, ep, Key(h, false)) || SlotHolds(ss, ep, Key(h, true))
  }

  /** The index is exactly the inverse of the filled slots. */
  ghost predicate Indexes(ix: map<Endpoint, Hash>, ss: Slots) {
    && (forall ep :: ep in ix ==> HeldBy(ss, ep, ix[ep]))
    && (forall ep, k {:trigger SlotHolds(ss, ep, k)} :: SlotHolds(ss, ep, k) ==> ep in ix && ix[ep] == k.hash)
  }

  ghost function Taken(ss: Slots, k: Key, s: Slot): Slots {
    (map j | j in ss && ss[j].ep != s.ep :: ss[j])[k := s]
  }

  lemma SlotsOfRegistered(cs: Cands, k: Key, c: Cand)
    ensures SlotsOf(Registered(cs, k, c)) == Taken(SlotsOf(cs), k, SlotOf(c))
    ensures SlotsOf(cs[k := c]) == SlotsOf(cs)[k := SlotOf(c)]
  {
  }

  lemma TakenIndexed(ix: map<Endpoint, Hash>, ss: Slots, k: Key, s: Slot)
    requires Indexes(ix, ss) && OneHolder(ss) && (k in ss ==> ss[k].seen != 0)
    ensures Indexes(Reindexed(ix, k.hash, Read(ss, k), s.ep), Taken(ss, k, s))
  {
    if k in ss {
      assert SlotHolds(ss, ss[k].ep, k);
    }
    var ix' := if k in ss && ss[k].ep != s.ep then ix - {ss[k].ep} else ix;
    assert ix'[s.ep := k.hash] == Reindexed(ix, k.hash, Read(ss, k), s.ep);
    var ss' := Taken(ss, k, s);
    assert SlotHolds(ss', s.ep, Key(k.hash, k.v6));
    forall ep | ep in ix' && ep != s.ep ensures HeldBy(ss', ep, ix'[ep]) {
      var j :| (j == Key(ix[ep], false) || j == Key(ix[ep], true)) && SlotHolds(ss, ep, j);
      assert SlotHolds(ss', ep, j);
    }
    forall ep, j | SlotHolds(ss', ep, j) && j != k ensures ep != s.ep && ep in ix' && ix'[ep] == j.hash {
      assert SlotHolds(ss, ep, j);
    }
  }

  lemma IndexKept(ix: map<Endpoint, Hash>, ss: Slots, k: Key, s: Slot)
    requires Indexes(ix, ss) && SlotHolds(ss, s.ep, k)
    ensures Indexes(ix, ss[k := s])
  {
    var ss' := ss[k := s];
    forall ep | ep in ix ensures HeldBy(ss', ep, ix[ep]) {
      assert HeldBy(ss, ep, ix[ep]);
    }
    forall ep, j | SlotHolds(ss', ep, j) ensures ep in ix && ix[ep] == j.hash {
      assert SlotHolds(ss, ep, j);
    }
  }

  /** The entries after the slot another hash held the endpoint in is cleared. */
  ghost function Evicted(es: map<Hash, Entry>, owner: Hash, v6: bool, ep: Endpoint): map<Hash, Entry>
    requires owner in es
  {
    var other := es[owner];
    var cleared := if other.At(v6).ep == ep then other.With(v6, EMPTY) else other;
    if cleared.Blank() then es - {owner} else es[owner := cleared]
  }

  lemma EvictedStored(es: map<Hash, Entry>, k: Key, ss: Slots)
    requires Stores(es, ss) && k in ss
    ensures k.hash in es && Stores(Evicted(es, k.hash, k.v6, ss[k].ep), ss - {k})
  {
  }

  lemma SetStored(es: map<Hash, Entry>, ss: Slots, k: Key, s: Slot, e: Entry)
    requires Stores(es, ss) && s.seen != 0
    requires e.At(k.v6) == s && e.At(!k.v6) == Read(ss, Key(k.hash, !k.v6))
    ensures Stores(es[k.hash := e], ss[k := s])
  {
  }

  ghost predicate OneHolder(ss: Slots) {
    forall i, j :: i in ss && j in ss && ss[i].ep == ss[j].ep ==> i == j
  }

  /** Taking an endpoint empties at most one other slot, the one the index names. */
  lemma TakenFrom(ix: map<Endpoint, Hash>, ss: Slots, k: Key, s: Slot)
    requires Indexes(ix, ss) && OneHolder(ss)
    requires forall j :: SlotHolds(ss, s.ep, j) ==> j.v6 == k.v6
    ensures var j := Key(OwnerOf(ix, s.ep, k.hash), k.v6);
            if j == k then Taken(ss, k, s) == ss[k := s]
            else SlotHolds(ss, s.ep, j) && Taken(ss, k, s) == (ss - {j})[k := s]
  {
    var owner := OwnerOf(ix, s.ep, k.hash);
    forall j | j in ss && ss[j].ep == s.ep ensures j == Key(owner, k.v6) {
      assert SlotHolds(ss, s.ep, j);
    }
    if s.ep in ix {
      assert HeldBy(ss, s.ep, owner);
    }
  }

  lemma TakenStored(es: map<Hash, Entry>, ix: map<Endpoint, Hash>, ss: Slots, k: Key, s: Slot, e: Entry)
    requires Stores(es, ss) && Indexes(ix, ss) && OneHolder(ss) && s.seen != 0
    requires forall j :: SlotHolds(ss, s.ep, j) ==> j.v6 == k.v6
    requires e.At(k.v6) == s && e.At(!k.v6) == Read(ss, Key(k.hash, !k.v6))
    ensures Stores(Stored(es, ix, k, s.ep)[k.hash := e], Taken(ss, k, s))
  {
    hide Stores, Indexes, Taken, Evicted;
    TakenFrom(ix, ss, k, s);
    var j := Key(OwnerOf(ix, s.ep, k.hash), k.v6);
    if j == k {
      SetStored(es, ss, k, s, e);
    } else {
      EvictedStored(es, j, ss);
      SetStored(Evicted(es, j.hash, k.v6, s.ep), ss - {j}, k, s, e);
    }
  }

  ghost predicate Shows(es: map<Hash, Entry>, ix: map<Endpoint, Hash>, cs: Cands) {
    Unique(cs) && InFamily(cs) && Stores(es, SlotsOf(cs)) && Indexes(ix, SlotsOf(cs))
  }

  /** The owner the index names for an endpoint that `hash` is about to take. */
  function OwnerOf(ix: map<Endpoint, Hash>, ep: Endpoint, hash: Hash): Hash {
    if ep in ix then ix[ep] else hash
  }

  function Unindexed(ix: map<Endpoint, Hash>, hash: Hash, ep: Endpoint): map<Endpoint, Hash> {
    if ep in ix && ix[ep] == hash then ix - {ep} else ix
  }

  /** The index after `hash` replaced `was` by `ep`. */
  ghost function Reindexed(ix: map<Endpoint, Hash>, hash: Hash, was: Slot, ep: Endpoint): map<Endpoint, Hash> {
    (if was.seen != 0 && was.ep != ep then Unindexed(ix, hash, was.ep) else ix)[ep := hash]
  }

  ghost function Stored(es: map<Hash, Entry>, ix: map<Endpoint, Hash>, k: Key, ep: Endpoint): map<Hash, Entry> {
    var owner := OwnerOf(ix, ep, k.hash);
    if owner == k.hash || owner !in es then es else Evicted(es, owner, k.v6, ep)
  }

  lemma SlotHeld(cs: Cands, ep: Endpoint, k: Key)
    ensures SlotHolds(SlotsOf(cs), ep, k) <==> Holds(cs, ep, k)
  {
  }

  /** One index lookup finds what a scan of every slot would: the endpoint's one holder, in its family. */
  lemma FoundByIndex(es: map<Hash, Entry>, ix: map<Endpoint, Hash>, cs: Cands, ep: Endpoint)
    requires Shows(es, ix, cs)
    ensures ep in ix ==>
              var k := Key(ix[ep], InV6(ep));
              Holds(cs, ep, k) && ix[ep] in es && es[ix[ep]].At(k.v6) == SlotOf(cs[k])
    ensures forall k :: Holds(cs, ep, k) ==> ep in ix && k == Key(ix[ep], InV6(ep))
  {
    hide Tick, InV6;
    if ep in ix {
      SlotHeld(cs, ep, Key(ix[ep], false));
      SlotHeld(cs, ep, Key(ix[ep], true));
    }
    forall k | Holds(cs, ep, k) ensures ep in ix && k == Key(ix[ep], InV6(ep)) {
      SlotHeld(cs, ep, k);
    }
  }

  /** The entry of a hash, blank when it has none. */
  function EntryOf(es: map<Hash, Entry>, h: Hash): Entry {
    if h in es then es[h] else Entry(EMPTY, EMPTY, 0)
  }

  lemma EntryRead(es: map<Hash, Entry>, ss: Slots, h: Hash, v6: bool)
    requires Stores(es, ss)
    ensures EntryOf(es, h).At(v6) == Read(ss, Key(h, v6))
  {
  }

  lemma StoredVersions(es: map<Hash, Entry>, ix: map<Endpoint, Hash>, k: Key, ep: Endpoint)
    ensures forall h :: h in Stored(es, ix, k, ep) ==> h in es && Stored(es, ix, k, ep)[h].version == es[h].version
  {
  }

  lemma UpsertShown(es: map<Hash, Entry>, ix: map<Endpoint, Hash>, cs: Cands, k: Key, c: Cand, e: Entry)
    requires Shows(es, ix, cs) && k.v6 == InV6(c.ep)
    requires e.At(k.v6) == SlotOf(c) && e.At(!k.v6) == Read(SlotsOf(cs), Key(k.hash, !k.v6))
    ensures Shows(Stored(es, ix, k, c.ep)[k.hash := e], Reindexed(ix, k.hash, Read(SlotsOf(cs), k), c.ep), Registered(cs, k, c))
  {
    hide Tick, InV6, Stores, Indexes, Taken;
    var ss := SlotsOf(cs);
    SlotsOfRegistered(cs, k, c);
    forall j | SlotHolds(ss, c.ep, j) ensures j.v6 == k.v6 {
      SlotHeld(cs, c.ep, j);
    }
    TakenIndexed(ix, ss, k, SlotOf(c));
    TakenStored(es, ix, ss, k, SlotOf(c), e);
  }

  lemma TouchShown(es: map<Hash, Entry>, ix: map<Endpoint, Hash>, cs: Cands, k: Key, c: Cand, e: Entry)
    requires Shows(es, ix, cs) && Holds(cs, c.ep, k)
    requires e.At(k.v6) == SlotOf(c) && e.At(!k.v6) == Read(SlotsOf(cs), Key(k.hash, !k.v6))
    ensures Shows(es[k.hash := e], ix, cs[k := c])
  {
    hide Tick, InV6, Stores, Indexes;
    SlotsOfRegistered(cs, k, c);
    SetStored(es, SlotsOf(cs), k, SlotOf(c), e);
    IndexKept(ix, SlotsOf(cs), k, SlotOf(c));
  }

  lemma IndexDropped(ix: map<Endpoint, Hash>, ss: Slots, k: Key)
    requires Indexes(ix, ss) && OneHolder(ss) && k in ss
    ensures OneHolder(ss - {k}) && Indexes(Unindexed(ix, k.hash, ss[k].ep), ss - {k})
  {
    var ix', ss' := Unindexed(ix, k.hash, ss[k].ep), ss - {k};
    assert SlotHolds(ss, ss[k].ep, k);
    forall ep | ep in ix' ensures HeldBy(ss', ep, ix'[ep]) {
      var j :| (j == Key(ix[ep], false) || j == Key(ix[ep], true)) && SlotHolds(ss, ep, j);
      assert SlotHolds(ss', ep, j);
    }
    forall ep, j | SlotHolds(ss', ep, j) ensures ep in ix' && ix'[ep] == j.hash {
      assert SlotHolds(ss, ep, j);
    }
  }

  /** Writing one entry back, or deleting it when both its slots are empty. */
  lemma WriteStored(es: map<Hash, Entry>, ss: Slots, ss': Slots, h: Hash, e: Entry)
    requires Stores(es, ss)
    requires forall k :: k in ss' ==> k in ss && ss'[k] == ss[k]
    requires forall k :: k in ss && k.hash != h ==> k in ss'
    requires e.v4 == Read(ss', Key(h, false)) && e.v6 == Read(ss', Key(h, true))
    ensures Stores(if e.Blank() then es - {h} else es[h := e], ss')
  {
    var es' := if e.Blank() then es - {h} else es[h := e];
    forall g ensures g in es' <==> Known(ss', g) {
      if g != h {
        assert Key(g, false) in ss <==> Key(g, false) in ss';
        assert Key(g, true) in ss <==> Key(g, true) in ss';
      }
    }
  }

  /** The candidates left when the sweep has been through these hashes. */
  ghost function SweptFor(cs: Cands, ttl: nat, now: nat, hs: set<Hash>): Cands {
    map k | k in cs && (k.hash in hs ==> Live(ttl, now, cs[k].at)) :: cs[k]
  }

  /** One family of one hash swept. */
  ghost function DropDead(cs: Cands, ttl: nat, now: nat, k: Key): Cands {
    if k in cs && !Live(ttl, now, cs[k].at) then cs - {k} else cs
  }

  lemma SweptForOne(cs: Cands, ttl: nat, now: nat, h: Hash)
    ensures SweptFor(cs, ttl, now, {h}) ==
            DropDead(DropDead(cs, ttl, now, Key(h, false)), ttl, now, Key(h, true))
  {
    hide Live;
    forall k: Key | k.hash == h ensures k == Key(h, false) || k == Key(h, true) {
    }
  }

  lemma SweptForMore(cs: Cands, ttl: nat, now: nat, hs: set<Hash>, h: Hash)
    ensures SweptFor(SweptFor(cs, ttl, now, hs), ttl, now, {h}) == SweptFor(cs, ttl, now, hs + {h})
  {
    hide Live;
  }

  lemma DropDeadIndexed(ix: map<Endpoint, Hash>, cs: Cands, ttl: nat, now: nat, k: Key)
    requires Indexes(ix, SlotsOf(cs)) && Unique(cs)
    ensures var cs' := DropDead(cs, ttl, now, k);
            && Unique(cs')
            && Indexes(if k in cs && !Live(ttl, now, cs[k].at) then Unindexed(ix, k.hash, cs[k].ep) else ix, SlotsOf(cs'))
  {
    hide Live, Tick, Indexes;
    assert OneHolder(SlotsOf(cs));
    if k in cs {
      IndexDropped(ix, SlotsOf(cs), k);
      assert SlotsOf(cs - {k}) == SlotsOf(cs) - {k};
    }
  }

  predicate Dead(slot: Slot, tick: nat, ttl: nat) { slot.seen != 0 && !(Age(tick, slot.seen) < ttl) }

  function ClearedEntry(e: Entry, v6: bool, tick: nat, ttl: nat): Entry {
    if Dead(e.At(v6), tick, ttl) then e.With(v6, EMPTY) else e
  }

  function ClearedIndex(ix: map<Endpoint, Hash>, h: Hash, e: Entry, v6: bool, tick: nat, ttl: nat): map<Endpoint, Hash> {
    if Dead(e.At(v6), tick, ttl) then Unindexed(ix, h, e.At(v6).ep) else ix
  }

  lemma DropDeadShown(ix: map<Endpoint, Hash>, cs: Cands, ttl: nat, now: nat, k: Key, e: Entry)
    requires Indexes(ix, SlotsOf(cs)) && Unique(cs) && InFamily(cs)
    requires e.At(k.v6) == Read(SlotsOf(cs), k) && e.At(!k.v6) == Read(SlotsOf(cs), Key(k.hash, !k.v6))
    ensures var cs' := DropDead(cs, ttl, now, k);
            var e' := ClearedEntry(e, k.v6, Tick(now), ttl);
            && Unique(cs') && InFamily(cs')
            && Indexes(ClearedIndex(ix, k.hash, e, k.v6, Tick(now), ttl), SlotsOf(cs'))
            && e'.At(k.v6) == Read(SlotsOf(cs'), k) && e'.At(!k.v6) == Read(SlotsOf(cs'), Key(k.hash, !k.v6))
  {
    hide Tick, Indexes, InV6, Age;
    DropDeadIndexed(ix, cs, ttl, now, k);
  }

  lemma SweepOneShown(es: map<Hash, Entry>, ix: map<Endpoint, Hash>, cs: Cands, ttl: nat, now: nat, h: Hash)
    requires Shows(es, ix, cs) && h in es
    ensures var t := Tick(now);
            var e := ClearedEntry(es[h], false, t, ttl);
            var e' := ClearedEntry(e, true, t, ttl);
            var ix' := ClearedIndex(ClearedIndex(ix, h, es[h], false, t, ttl), h, e, true, t, ttl);
            Shows(if e'.Blank() then es - {h} else es[h := e'], ix', SweptFor(cs, ttl, now, {h}))
  {
    hide Tick, Indexes, Age, Dead, InFamily, Unique, Stores, Live, DropDead, SweptFor;
    var f, g, t := Key(h, false), Key(h, true), Tick(now);
    var mid := DropDead(cs, ttl, now, f);
    var end := DropDead(mid, ttl, now, g);
    var e := ClearedEntry(es[h], false, t, ttl);
    EntryRead(es, SlotsOf(cs), h, false);
    EntryRead(es, SlotsOf(cs), h, true);
    DropDeadShown(ix, cs, ttl, now, f, es[h]);
    DropDeadShown(ClearedIndex(ix, h, es[h], false, t, ttl), mid, ttl, now, g, e);
    SweptForOne(cs, ttl, now, h);
    SweptSlots(cs, ttl, now, h);
    WriteStored(es, SlotsOf(cs), SlotsOf(end), h, ClearedEntry(e, true, t, ttl));
  }

  lemma SweptSlots(cs: Cands, ttl: nat, now: nat, h: Hash)
    ensures var ss, ss' := SlotsOf(cs), SlotsOf(SweptFor(cs, ttl, now, {h}));
            && (forall k :: k in ss' ==> k in ss && ss'[k] == ss[k])
            && (forall k :: k in ss && k.hash != h ==> k in ss')
  {
    hide Tick, Live;
  }

  lemma SweptForNone(cs: Cands, ttl: nat, now: nat)
    ensures SweptFor(cs, ttl, now, {}) == cs
  {
    hide Live;
  }

  class Registry {
    const ttl: nat
    var entries: map<Hash, Entry>
    var byAddr: map<Endpoint, Hash>
    ghost var cands: Cands

    ghost predicate Valid()
      reads this
    {
      Shows(entries, byAddr, cands)
    }

    constructor (registrationTtl: int)
      ensures Valid() && cands == map[] && ttl == (if registrationTtl <= 0 then 90_000 else registrationTtl)
    {
      ttl := if registrationTtl <= 0 then 90_000 else registrationTtl;
      entries := map[];
      byAddr := map[];
      cands := map[];
    }

    /** Drops `ep`'s index entry when it is `hash`'s. */
    method Unindex(hash: Hash, ep: Endpoint)
      modifies this`byAddr
      ensures byAddr == Unindexed(old(byAddr), hash, ep)
    {
      if ep in byAddr && byAddr[ep] == hash {
        byAddr := byAddr - {ep};
      }
    }

    /** Clears the slot another hash holds `ep` in. */
    method Evict(hash: Hash, v6: bool, ep: Endpoint)
      modifies this`entries
      ensures entries == Stored(old(entries), byAddr, Key(hash, v6), ep)
    {
      if ep in byAddr && byAddr[ep] != hash {
        var owner := byAddr[ep];
        if owner in entries {
          var other := entries[owner];
          if other.At(v6).ep == ep {
            other := other.With(v6, EMPTY);
          }
          if other.Blank() {
            entries := entries - {owner};
          } else {
            entries := entries[owner := other];
          }
        }
      }
    }

    /** Stores `ep` as `hash`'s candidate for one family and keeps the index in step. */
    method SetSlot(hash: Hash, entry: Entry, v6: bool, ep: Endpoint, sock: Byte, tick: nat) returns (r: Entry)
      modifies this`entries, this`byAddr
      ensures entries == Stored(old(entries), old(byAddr), Key(hash, v6), ep)
      ensures byAddr == Reindexed(old(byAddr), hash, entry.At(v6), ep)
      ensures r == entry.With(v6, Slot(ep, sock, tick))
    {
      var slot := entry.At(v6);
      if slot.seen != 0 && slot.ep != ep {
        Unindex(hash, slot.ep);
      }
      Evict(hash, v6, ep);
      byAddr := byAddr[ep := hash];
      r := entry.With(v6, Slot(ep, sock, tick));
    }

    method Upsert(hash: Hash, remote: Remote, version: Byte, sock: Byte, now: nat)
      requires Valid() && remote.Valid()
      modifies this
      ensures Valid()
      ensures cands == Registered(old(cands), Key(hash, IsIPv6(remote)), Cand(EndpointOf(remote), sock, now))
      ensures hash in entries
      ensures entries[hash].version ==
              if version > 0 then version else EntryOf(old(entries), hash).version
      ensures forall h :: h in entries && h != hash ==> h in old(entries) && entries[h].version == old(entries)[h].version
    {
      hide Tick, InV6, IsIPv6, EndpointOf, Stored, Reindexed, Stores, Indexes, InFamily, Unique, Registered, SlotsOf;
      EndpointFaithful(remote, remote);
      var v6, ep := IsIPv6(remote), EndpointOf(remote);
      var entry := EntryOf(entries, hash);
      EntryRead(entries, SlotsOf(cands), hash, v6);
      EntryRead(entries, SlotsOf(cands), hash, !v6);
      if version > 0 {
        entry := entry.(version := version);
      }
      ghost var k, c := Key(hash, v6), Cand(ep, sock, now);
      UpsertShown(entries, byAddr, cands, k, c, entry.With(v6, SlotOf(c)));
      StoredVersions(entries, byAddr, k, ep);
      entry := SetSlot(hash, entry, v6, ep, sock, Tick(now));
      entries := entries[hash := entry];
      cands := Registered(cands, k, c);
    }

    method TouchByAddr(remote: Remote, sock: Byte, now: nat) returns (hash: Option<Hash>)
      requires Valid() && remote.Valid()
      modifies this
      ensures Valid()
      ensures hash.Some? <==> exists k :: HeardLive(old(cands), ttl, EndpointOf(remote), now, k)
      ensures hash.Some? ==> HeardLive(old(cands), ttl, EndpointOf(remote), now, Key(hash.value, IsIPv6(remote)))
      ensures cands == Touched(old(cands), ttl, EndpointOf(remote), sock, now)
    {
      hide Tick, InV6, IsIPv6, EndpointOf, Indexes, InFamily;
      EndpointFaithful(remote, remote);
      var ep := EndpointOf(remote);
      FoundByIndex(entries, byAddr, cands, ep);
      if ep !in byAddr || byAddr[ep] !in entries {
        return None;
      }
      var owner := byAddr[ep];
      var entry := entries[owner];
      var slot := entry.At(IsIPv6(remote));
      if !(slot.seen != 0 && Age(Tick(now), slot.seen) < ttl) || slot.ep != ep {
        return None;
      }
      ghost var k, c := Key(owner, IsIPv6(remote)), Cand(ep, sock, now);
      assert HeardLive(cands, ttl, ep, now, k);
      TouchedIs(cands, ttl, ep, sock, now, k);
      TouchShown(entries, byAddr, cands, k, c, entry.With(k.v6, SlotOf(c)));
      entries := entries[owner := entry.With(IsIPv6(remote), slot.(seen := Tick(now), sock := sock))];
      cands := cands[k := c];
      return Some(owner);
    }

    /** Clears one family slot of an entry when it is past the TTL, and its index entry with it. */
    method ClearDead(hash: Hash, entry: Entry, v6: bool, tick: nat) returns (r: Entry)
      modifies this`byAddr
      ensures r == ClearedEntry(entry, v6, tick, ttl)
      ensures byAddr == ClearedIndex(old(byAddr), hash, entry, v6, tick, ttl)
    {
      var slot := entry.At(v6);
      r := entry;
      if slot.seen != 0 && !(Age(tick, slot.seen) < ttl) {
        Unindex(hash, slot.ep);
        r := entry.With(v6, EMPTY);
      }
    }

    method SweepOne(hash: Hash, now: nat)
      requires Valid() && hash in entries
      modifies this
      ensures Valid() && cands == SweptFor(old(cands), ttl, now, {hash})
      ensures entries.Keys - {hash} == old(entries).Keys - {hash}
      ensures forall h :: h in entries ==> h in old(entries) && entries[h].version == old(entries)[h].version
    {
      hide Shows, Tick, Age, SweptFor, ClearedIndex, Dead;
      SweepOneShown(entries, byAddr, cands, ttl, now, hash);
      var entry := ClearDead(hash, entries[hash], false, Tick(now));
      entry := ClearDead(hash, entry, true, Tick(now));
      if entry.Blank() {
        entries := entries - {hash};
      } else {
        entries := entries[hash := entry];
      }
      cands := SweptFor(cands, ttl, now, {hash});
    }

    method Cleanup(now: nat)
      requires Valid()
      modifies this
      ensures Valid() && cands == Swept(old(cands), ttl, now)
      ensures forall h :: h in entries ==> h in old(entries) && entries[h].version == old(entries)[h].version
    {
      hide Shows, SweptFor, Swept;
      SweptForNone(cands, ttl, now);
      AllSwept(now);
      var todo := entries.Keys;
      ghost var done: set<Hash> := {};
      while todo != {}
        invariant Valid() && todo <= entries.Keys
        invariant cands == SweptFor(old(cands), ttl, now, done) && done + todo == old(entries).Keys
        invariant forall h :: h in entries ==> h in old(entries) && entries[h].version == old(entries)[h].version
        decreases |todo|
      {
        var h :| h in todo;
        SweptForMore(old(cands), ttl, now, done, h);
        ghost var keys := entries.Keys;
        SweepOne(h, now);
        assert todo - {h} <= keys - {h};
        todo := todo - {h};
        done := done + {h};
      }
      assert done == old(entries).Keys;
    }

    lemma AllSwept(now: nat)
      requires Valid()
      ensures SweptFor(cands, ttl, now, entries.Keys) == Swept(cands, ttl, now)
    {
      hide Live, Tick, Indexes, InFamily, Unique;
      forall k | k in cands ensures k.hash in entries {
        assert k in SlotsOf(cands) && (k == Key(k.hash, false) || k == Key(k.hash, true));
      }
    }

    function Snapshot(s: Slot, now: nat): Option<Candidate> {
      if s.seen != 0 && Age(Tick(now), s.seen) < ttl
      then Some(Candidate(UdpAddr(s.ep), now - Age(Tick(now), s.seen), s.sock)) else None
    }

    /** What the reference says of one family of a hash. */
    ghost function Answer(k: Key, now: nat): Option<Candidate>
      reads this
    {
      if k in cands && Live(ttl, now, cands[k].at)
      then Some(Candidate(UdpAddr(cands[k].ep), now - Age(Tick(now), Tick(cands[k].at)), cands[k].sock)) else None
    }

    method Get(hash: Hash, now: nat) returns (client: Option<Client>)
      requires Valid()
      ensures client.Some? <==> Answer(Key(hash, false), now).Some? || Answer(Key(hash, true), now).Some?
      ensures client.Some? ==>
              && hash in entries
              && client.value ==
                 Client(hash, Answer(Key(hash, false), now), Answer(Key(hash, true), now), entries[hash].version)
    {
      hide Age, Tick, Indexes, InFamily, Unique;
      if hash !in entries {
        return None;
      }
      var e := entries[hash];
      var snap := Client(hash, Snapshot(e.v4, now), Snapshot(e.v6, now), e.version);
      if snap.v4.None? && snap.v6.None? {
        return None;
      }
      return Some(snap);
    }
  }
}
