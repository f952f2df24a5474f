/**
 The table of peer servers (ed2k/gossip.go): who gets in, who moves up the admission
 states, who is advertised, and when a silent peer is still contacted
 (ed2k/gossipclient.go).

 A source address may belong to several entries and the lookup by address picks any of
 them, so what a frame does is a relation between tables.
 */
module Gossip {
  import opened Bytes

  const SEEN: nat := 0
  const KEYED: nat := 1
  const DESCRIBED: nat := 2
  const VERIFIED: nat := 3
  const RETRY_ROUNDS: nat := 8
  const CLIENT_WINDOW: int := 1_800_000

  /** An address in normal form, as a number, and the server's port. */
  datatype Addr = Addr(ip: nat, port: nat)

  /** What a stat reply carries; the key and the ports only in its extended form. */
  datatype Stat = Stat(extended: bool, key: nat, udpPort: nat, tcpPort: nat, flags: nat, users: nat, files: nat)

  datatype Peer = Peer(
    state: nat, key: nat, udpPort: nat, tcpPort: nat, flags: nat, users: nat, files: nat,
    name: string, desc: string, failures: nat, verifiedAt: int)

  const NEW_PEER: Peer := Peer(SEEN, 0, 0, 0, 0, 0, 0, "", "", 0, 0)

  type Table = map<Addr, Peer>

  // ---------------------------------------------------------------- what happens to one peer

  /** Up to a state, never back; reaching for the admission bar or more is stamped each time. */
  function Promoted(p: Peer, to: nat, at: int): Peer {
    var q := if to > p.state then p.(state := to) else p;
    if to >= DESCRIBED then q.(verifiedAt := at) else q
  }

  function Answered(p: Peer): Peer { p.(failures := 0) }

  function Stated(p: Peer, s: Stat, at: int): Peer {
    var q := Answered(p).(users := s.users, files := s.files);
    if !s.extended then q
    else Promoted(q.(key := s.key, udpPort := s.udpPort, tcpPort := s.tcpPort, flags := s.flags), KEYED, at)
  }

  function Named(p: Peer, name: string, desc: string, at: int): Peer {
    Promoted(Answered(p.(name := name, desc := desc)), DESCRIBED, at)
  }

  /** What a registration does to its entry. */
  function Announced(p: Peer, obfuscated: bool, at: int): Peer {
    if obfuscated then Promoted(Answered(p), VERIFIED, at) else Answered(p)
  }

  /** What an accepted reply does to the peer it came from. */
  datatype Reply = StatedAs(stat: Stat) | NamedAs(name: string, desc: string) | VerifiedAs

  function Replied(p: Peer, r: Reply, at: int): Peer {
    match r
    case StatedAs(stat) => Stated(p, stat, at)
    case NamedAs(name, desc) => Named(p, name, desc, at)
    case VerifiedAs => Promoted(Answered(p), VERIFIED, at)
  }

  predicate Parked(p: Peer, maxFailures: int) { maxFailures > 0 && p.failures >= maxFailures }

  predicate Advertisable(p: Peer, maxFailures: int) { p.state >= DESCRIBED && !Parked(p, maxFailures) }

  // ---------------------------------------------------------------- what happens to the table

  datatype Event =
    // frames, with the address they came from and when
    | List(from: nat, entries: seq<Addr>, obfuscated: bool)
    | Register(from: nat, port: nat, obfuscated: bool, at: int)
    | StatReply(from: nat, stat: Stat, matches: bool, at: int)
    | Description(from: nat, name: string, desc: string, at: int)
    | Verification(from: nat, at: int)
    // our own doing: seeds, the start of a round, and one contact of a round
    | Seeds(seeds: seq<Addr>)
    | Start(round: nat)
    | Contact(addr: Addr)

  /** Old entries as they were, new ones only at the lowest state. */
  ghost predicate Grown(t: Table, u: Table) {
    && (forall a :: a in t ==> a in u && u[a] == t[a])
    && (forall a :: a in u && a !in t ==> u[a] == NEW_PEER)
  }

  ghost predicate Known(t: Table, ip: nat) { exists a :: a in t && a.ip == ip }

  /** No other entry shares the entry's address. */
  ghost predicate OnlyAt(t: Table, a: Addr) { a in t && forall b :: b in t && b.ip == a.ip ==> b == a }

  /** One entry at the address takes the reply, when there is one. */
  ghost predicate OneReplied(t: Table, ip: nat, r: Reply, at: int, u: Table) {
    if Known(t, ip) then exists a :: a in t && a.ip == ip && u == t[a := Replied(t[a], r, at)] else u == t
  }

  ghost predicate KeyedAt(t: Table, ip: nat) { exists a :: a in t && a.ip == ip && t[a].state >= KEYED }

  ghost predicate OnlyKeyedAt(t: Table, ip: nat) {
    Known(t, ip) && forall a :: a in t && a.ip == ip ==> t[a].state >= KEYED
  }

  /** A known entry takes its registration; a new address may be refused. */
  ghost predicate Registered(t: Table, a: Addr, obfuscated: bool, at: int, u: Table) {
    if a.port == 0 then u == t
    else if a in t then u == t[a := Announced(t[a], obfuscated, at)]
    else u == t || u == t[a := Announced(NEW_PEER, obfuscated, at)]
  }

  /** Whether a round takes the peer. */
  predicate Contacted(p: Peer, round: nat, maxFailures: int) {
    round % RETRY_ROUNDS == 0 || !Parked(p, maxFailures)
  }

  function Targets(t: Table, round: nat, maxFailures: int): set<Addr> {
    set a | a in t && Contacted(t[a], round, maxFailures)
  }

  /** Contacting a peer counts as a failure until it answers. */
  function Tried(t: Table, a: Addr): Table {
    if a in t then t[a := t[a].(failures := t[a].failures + 1)] else t
  }

  predicate ValidName(name: string, desc: string) {
    name != "" && |name| <= 255 && |desc| <= 512 && (forall i :: 0 <= i < |name| ==> name[i] >= ' ' && name[i] != 0x7f as char)
    && (forall i :: 0 <= i < |desc| ==> desc[i] >= ' ' && desc[i] != 0x7f as char)
  }

  ghost predicate Step(t: Table, e: Event, u: Table) {
    match e
    case List(from, entries, obfuscated) =>
      Grown(t, u) && (forall a :: a in u && a !in t ==> a in entries) && (u != t ==> obfuscated && KeyedAt(t, from))
    case Register(from, port, obfuscated, at) => Registered(t, Addr(from, port), obfuscated, at, u)
    case StatReply(from, stat, matches, at) => if matches then OneReplied(t, from, StatedAs(stat), at, u) else u == t
    case Description(from, name, desc, at) =>
      if ValidName(name, desc) then OneReplied(t, from, NamedAs(name, desc), at, u) else u == t
    case Verification(from, at) => OneReplied(t, from, VerifiedAs, at, u)
    case Seeds(seeds) => Grown(t, u) && forall a :: a in u && a !in t ==> a in seeds
    case Start(_) => u == t
    case Contact(addr) => u == Tried(t, addr)
  }

  // ---------------------------------------------------------------- what every step keeps

  predicate IsFrame(e: Event) { !e.Seeds? && !e.Start? && !e.Contact? }

  /** A frame that may move an entry at its own address up. */
  ghost predicate Proof(e: Event, ip: nat) {
    match e
    case Register(from, _, obfuscated, _) => from == ip && obfuscated
    case StatReply(from, stat, matches, _) => from == ip && matches && stat.extended
    case Description(from, name, desc, _) => from == ip && ValidName(name, desc)
    case Verification(from, _) => from == ip
    case _ => false
  }

  /** A frame from one address changes no peer at another; a list changes none at all and needs a keyed sender. */
  lemma FrameInterferesWithNobody(t: Table, e: Event, u: Table, a: Addr)
    requires Step(t, e, u) && IsFrame(e)
    ensures a in t ==> a in u
    ensures a in t && (e.List? || a.ip != e.from) ==> u[a] == t[a]
    ensures a in u && a !in t && (e.List? || a.ip != e.from) ==> e.List? && u[a] == NEW_PEER && e.obfuscated && KeyedAt(t, e.from)
  {
    hide Replied;
  }

  /** States never go back; nothing but a proof from its own address moves an entry up. */
  lemma StatesOnlyRise(t: Table, e: Event, u: Table, a: Addr)
    requires Step(t, e, u)
    ensures a in t ==> a in u && u[a].state >= t[a].state
    ensures a in u && u[a].state > (if a in t then t[a].state else SEEN) ==> Proof(e, a.ip)
    ensures a in u && !Proof(e, a.ip) ==> u[a].key == (if a in t then t[a].key else 0)
  {
  }

  /** A run: the tables between the events. */
  ghost predicate Run(ts: seq<Table>, es: seq<Event>) {
    |ts| == |es| + 1 && forall i :: 0 <= i < |es| ==> Step(ts[i], es[i], ts[i + 1])
  }

  /** Whatever is above the lowest state, and so whatever is advertised, answered from its own address. */
  lemma {:induction false} AdvertisedProvedItself(ts: seq<Table>, es: seq<Event>, maxFailures: int, a: Addr, n: nat)
    requires Run(ts, es) && (a in ts[0] ==> ts[0][a].state == SEEN) && n <= |es|
    ensures a in ts[n] && (ts[n][a].state > SEEN || Advertisable(ts[n][a], maxFailures)) ==>
              exists i :: 0 <= i < n && Proof(es[i], a.ip)
    decreases n
  {
    hide Step, Proof;
    if n > 0 {
      AdvertisedProvedItself(ts, es, maxFailures, a, n - 1);
      StatesOnlyRise(ts[n - 1], es[n - 1], ts[n], a);
    }
  }

  /** Without a limit whoever is advertised stays advertised. */
  lemma {:induction false} NoLimitNeverWithdrawn(ts: seq<Table>, es: seq<Event>, maxFailures: int, a: Addr, m: nat, n: nat)
    requires Run(ts, es) && maxFailures <= 0 && m <= n <= |es|
    requires a in ts[m] && Advertisable(ts[m][a], maxFailures)
    ensures a in ts[n] && Advertisable(ts[n][a], maxFailures)
    decreases n
  {
    hide Step;
    if m < n {
      NoLimitNeverWithdrawn(ts, es, maxFailures, a, m, n - 1);
      StatesOnlyRise(ts[n - 1], es[n - 1], ts[n], a);
    }
  }

  // ---------------------------------------------------------------- described without a key

  /** The peer has shown that it holds a key: we got its own, or it used ours. */
  ghost predicate ShowsKey(e: Event, ip: nat) {
    match e
    case Register(from, port, obfuscated, _) => from == ip && port != 0 && obfuscated
    case StatReply(from, stat, matches, _) => from == ip && matches && stat.extended
    case _ => false
  }

  /** A frame that lifts to the admission bar and shows no key by itself. */
  ghost predicate Bare(e: Event, ip: nat) {
    match e
    case Description(from, name, desc, _) => from == ip && ValidName(name, desc)
    case Verification(from, _) => from == ip
    case _ => false
  }

  /** One plain description takes a new peer to the admission bar: it is advertised and there is no key. */
  lemma DescribedWithoutKey(t: Table, u: Table, a: Addr, at: int, maxFailures: int)
    requires OnlyAt(t, a) && t[a] == NEW_PEER && Step(t, Description(a.ip, "n", "", at), u)
    ensures a in u && u[a].state == DESCRIBED && u[a].key == 0 && Advertisable(u[a], maxFailures)
  {
    assert ValidName("n", "");
    assert Known(t, a.ip);
  }

  lemma BarNeeds(t: Table, e: Event, u: Table, a: Addr)
    requires Step(t, e, u) && a in u && u[a].state >= DESCRIBED
    ensures (a in t && t[a].state >= DESCRIBED) || Bare(e, a.ip) || ShowsKey(e, a.ip)
  {
  }

  /** Reaching the bar takes such a frame. */
  lemma {:induction false} BarReached(ts: seq<Table>, es: seq<Event>, a: Addr, n: nat)
    requires Run(ts, es) && (a in ts[0] ==> ts[0][a].state < DESCRIBED) && n <= |es|
    requires a in ts[n] && ts[n][a].state >= DESCRIBED
    ensures exists i :: 0 <= i < n && (Bare(es[i], a.ip) || ShowsKey(es[i], a.ip))
    decreases n
  {
    hide Step, Bare, ShowsKey;
    if n > 0 {
      BarNeeds(ts[n - 1], es[n - 1], ts[n], a);
      if a in ts[n - 1] && ts[n - 1][a].state >= DESCRIBED { BarReached(ts, es, a, n - 1); }
    }
  }

  ghost predicate ShownBefore(es: seq<Event>, ip: nat, n: nat)
    requires n <= |es|
  {
    exists i :: 0 <= i < n && ShowsKey(es[i], ip)
  }

  /** Every description or list reply from the address comes after it showed a key. */
  ghost predicate KeyFirst(es: seq<Event>, ip: nat) {
    forall n :: 0 <= n < |es| && Bare(es[n], ip) ==> ShownBefore(es, ip, n)
  }

  /** In this run the entry is never at the admission bar before its address showed a key. */
  ghost predicate KeyedAtBar(ts: seq<Table>, es: seq<Event>, a: Addr)
    requires |ts| == |es| + 1
  {
    forall n :: 0 <= n <= |es| && a in ts[n] && ts[n][a].state >= DESCRIBED ==> ShownBefore(es, a.ip, n)
  }

  lemma KeyFirstSuffices(ts: seq<Table>, es: seq<Event>, a: Addr)
    requires Run(ts, es) && (a in ts[0] ==> ts[0][a].state < DESCRIBED) && KeyFirst(es, a.ip)
    ensures KeyedAtBar(ts, es, a)
  {
    hide Step, Bare, ShowsKey;
    forall n | 0 <= n <= |es| && a in ts[n] && ts[n][a].state >= DESCRIBED ensures ShownBefore(es, a.ip, n) {
      BarReached(ts, es, a, n);
      var i :| 0 <= i < n && (Bare(es[i], a.ip) || ShowsKey(es[i], a.ip));
      if Bare(es[i], a.ip) { assert ShownBefore(es, a.ip, i); }
    }
  }

  /** A step in which the lookup by address finds `a` whenever it can. */
  lemma Favouring(t: Table, e: Event, a: Addr) returns (u: Table)
    requires a in t
    ensures Step(t, e, u) && a in u && (Bare(e, a.ip) ==> u[a].state >= DESCRIBED)
  {
    if IsFrame(e) && !e.List? && Known(t, e.from) {
      var b :| b in t && b.ip == e.from;
      u := Answering(t, e, if a.ip == e.from then a else b);
    } else {
      u := match e case Contact(addr) => Tried(t, addr) case _ => t;
    }
  }

  lemma Answering(t: Table, e: Event, b: Addr) returns (u: Table)
    requires b in t && IsFrame(e) && !e.List? && b.ip == e.from
    ensures Step(t, e, u) && forall a :: a in t ==> a in u
    ensures Bare(e, b.ip) ==> u[b].state >= DESCRIBED
  {
    assert Known(t, b.ip);
    match e
    case Register(from, port, obfuscated, at) =>
      var c := Addr(from, port);
      u := if port == 0 || c !in t then t else t[c := Announced(t[c], obfuscated, at)];
    case StatReply(_, stat, matches, at) => u := if matches then t[b := Replied(t[b], StatedAs(stat), at)] else t;
    case Description(_, name, desc, at) =>
      u := if ValidName(name, desc) then t[b := Replied(t[b], NamedAs(name, desc), at)] else t;
    case Verification(_, at) => u := t[b := Replied(t[b], VerifiedAs, at)];
  }

  lemma {:induction false} FavouringRun(t: Table, es: seq<Event>, a: Addr) returns (ts: seq<Table>)
    requires a in t
    ensures Run(ts, es) && ts[0] == t
    ensures forall i :: 0 <= i <= |es| ==> a in ts[i]
    ensures forall i :: 0 <= i < |es| && Bare(es[i], a.ip) ==> ts[i + 1][a].state >= DESCRIBED
    decreases es
  {
    hide Step, Bare;
    if es == [] { ts := [t]; return; }
    var n := |es| - 1;
    var us := FavouringRun(t, es[..n], a);
    var u := Favouring(us[n], es[n], a);
    ts := us + [u];
    forall i | 0 <= i < |es| ensures Step(ts[i], es[i], ts[i + 1]) {
      if i < n { assert Step(us[i], es[..n][i], us[i + 1]); }
    }
    forall i | 0 <= i < |es| && Bare(es[i], a.ip) ensures ts[i + 1][a].state >= DESCRIBED {
      if i < n { assert es[..n][i] == es[i]; }
    }
  }

  /**
   Exactly when the admission bar does imply a key: whatever the table and whichever entry
   the lookups pick, an entry is at the bar only after its address showed a key, if and
   only if the events from that address come in that order.
   */
  lemma BarImpliesKey(t: Table, es: seq<Event>, a: Addr)
    requires a in t && t[a].state < DESCRIBED
    ensures (forall ts: seq<Table> :: Run(ts, es) && ts[0] == t ==> KeyedAtBar(ts, es, a)) <==> KeyFirst(es, a.ip)
  {
    hide Step, Bare, ShowsKey;
    if KeyFirst(es, a.ip) {
      forall ts: seq<Table> | Run(ts, es) && ts[0] == t ensures KeyedAtBar(ts, es, a) { KeyFirstSuffices(ts, es, a); }
    } else {
      var n :| 0 <= n < |es| && Bare(es[n], a.ip) && !ShownBefore(es, a.ip, n);
      var ts := FavouringRun(t, es, a);
      BareShowsNothing(es, a.ip, n);
      var u: Table := ts[n + 1];
      assert a in u && u[a].state >= DESCRIBED;
      assert !KeyedAtBar(ts, es, a);
    }
  }

  lemma BareShowsNothing(es: seq<Event>, ip: nat, n: nat)
    requires n < |es| && Bare(es[n], ip) && !ShownBefore(es, ip, n)
    ensures !ShownBefore(es, ip, n + 1)
  {
  }

  // ---------------------------------------------------------------- a parked peer comes back

  /** A reply that is accepted from whichever entry it is taken to come from. */
  ghost predicate Replies(e: Event, ip: nat) {
    match e
    case StatReply(from, _, matches, _) => from == ip && matches
    case Description(from, name, desc, _) => from == ip && ValidName(name, desc)
    case Verification(from, _) => from == ip
    case _ => false
  }

  /**
   An accepted reply from a parked peer's address is sure to bring it back exactly when no
   other entry shares that address. It then keeps its state, and so is advertised again if
   it was before it fell silent.
   */
  lemma ReplyRevives(t: Table, e: Event, a: Addr, maxFailures: int)
    requires a in t && Parked(t[a], maxFailures) && Replies(e, a.ip)
    ensures (forall u: Table :: Step(t, e, u) ==> a in u && !Parked(u[a], maxFailures)) <==> OnlyAt(t, a)
    ensures OnlyAt(t, a) ==> forall u: Table :: Step(t, e, u) ==>
              && a in u && u[a].failures == 0 && u[a].state >= t[a].state
              && (t[a].state >= DESCRIBED ==> Advertisable(u[a], maxFailures))
  {
    hide Step;
    if OnlyAt(t, a) {
      forall u: Table | Step(t, e, u)
        ensures a in u && u[a].failures == 0 && u[a].state >= t[a].state && !Parked(u[a], maxFailures)
      {
        LoneReply(t, e, u, a);
      }
    } else {
      var b :| b in t && b.ip == a.ip && b != a;
      var u := OtherReplies(t, e, a, b);
    }
  }

  lemma LoneReply(t: Table, e: Event, u: Table, a: Addr)
    requires OnlyAt(t, a) && Replies(e, a.ip) && Step(t, e, u)
    ensures a in u && u[a].failures == 0 && u[a].state >= t[a].state
  {
    assert Known(t, a.ip);
  }

  /** Two entries at one address: the reply may go to the other. */
  lemma OtherReplies(t: Table, e: Event, a: Addr, b: Addr) returns (u: Table)
    requires a in t && b in t && a != b && a.ip == b.ip && Replies(e, a.ip)
    ensures Step(t, e, u) && a in u && u[a] == t[a]
  {
    hide Replied;
    assert Known(t, a.ip);
    match e
    case StatReply(_, stat, _, at) => u := t[b := Replied(t[b], StatedAs(stat), at)];
    case Description(_, name, desc, at) => u := t[b := Replied(t[b], NamedAs(name, desc), at)];
    case Verification(_, at) => u := t[b := Replied(t[b], VerifiedAs, at)];
  }

  /** At two servers behind one address: an accepted description, and the parked one stays parked. */
  lemma SharedAddressStaysParked(ip: nat, at: int) returns (t: Table, e: Event, u: Table)
    ensures Step(t, e, u) && Replies(e, ip)
    ensures Addr(ip, 1) in t && Addr(ip, 1) in u && Parked(t[Addr(ip, 1)], 1) && Parked(u[Addr(ip, 1)], 1)
  {
    var a, b := Addr(ip, 1), Addr(ip, 2);
    t, e := map[a := NEW_PEER.(failures := 1), b := NEW_PEER], Description(ip, "n", "", at);
    assert ValidName("n", "");
    u := OtherReplies(t, e, a, b);
  }

  /** A registration brings back the entry with exactly its address and port, and touches no other. */
  lemma RegistrationRevives(t: Table, from: nat, port: nat, obfuscated: bool, at: int, u: Table, a: Addr, maxFailures: int)
    requires a in t && Parked(t[a], maxFailures) && Step(t, Register(from, port, obfuscated, at), u)
    ensures a in u && u[a].state >= t[a].state
    ensures !Parked(u[a], maxFailures) <==> a == Addr(from, port) && port != 0
    ensures a != Addr(from, port) ==> u[a] == t[a]
  {
  }

  // ---------------------------------------------------------------- the parking schedule

  /** The event is no frame from this address. */
  ghost predicate Silent(e: Event, ip: nat) { IsFrame(e) && !e.List? ==> e.from != ip }

  ghost predicate Quiet(es: seq<Event>, ip: nat) { forall i :: 0 <= i < |es| ==> Silent(es[i], ip) }

  /** A silent step changes nothing of the peer but its failures, and those only by contacting it. */
  lemma SilentStep(t: Table, e: Event, u: Table, a: Addr)
    requires Step(t, e, u) && Silent(e, a.ip) && a in t
    ensures a in u && u[a] == t[a].(failures := t[a].failures + if e == Contact(a) then 1 else 0)
  {
    hide Replied;
    if IsFrame(e) { FrameInterferesWithNobody(t, e, u, a); }
  }

  /** How many of the first `n` events contact the peer. */
  ghost function Contacts(es: seq<Event>, a: Addr, n: nat): nat
    requires n <= |es|
  {
    if n == 0 then 0 else Contacts(es, a, n - 1) + if es[n - 1] == Contact(a) then 1 else 0
  }

  /** A peer that sends nothing keeps its state, key and name, whatever everyone else sends; each contact counts. */
  lemma {:induction false} QuietPeerKeeps(ts: seq<Table>, es: seq<Event>, a: Addr, n: nat)
    requires Run(ts, es) && Quiet(es, a.ip) && a in ts[0] && n <= |es|
    ensures a in ts[n] && ts[n][a] == ts[0][a].(failures := ts[0][a].failures + Contacts(es, a, n))
    decreases n
  {
    hide Step, Silent;
    if n > 0 {
      QuietPeerKeeps(ts, es, a, n - 1);
      SilentStep(ts[n - 1], es[n - 1], ts[n], a);
    }
  }

  /** How many of the first `n` events start a round. */
  ghost function Starts(es: seq<Event>, n: nat): nat
    requires n <= |es|
  {
    if n == 0 then 0 else Starts(es, n - 1) + if es[n - 1].Start? then 1 else 0
  }

  /** Whom the round under way has still to contact. */
  ghost function Owed(ts: seq<Table>, es: seq<Event>, maxFailures: int, n: nat): set<Addr>
    requires |ts| == |es| + 1 && n <= |es|
  {
    if n == 0 then {}
    else match es[n - 1]
      case Start(round) => Targets(ts[n - 1], round, maxFailures)
      case Contact(addr) => Owed(ts, es, maxFailures, n - 1) - {addr}
      case _ => Owed(ts, es, maxFailures, n - 1)
  }

  /**
   Rounds come one after the other, numbered from `first`. Each contacts the peers chosen
   at its start, once; frames arrive at any time.
   */
  ghost predicate Scheduled(ts: seq<Table>, es: seq<Event>, maxFailures: int, first: nat)
    requires |ts| == |es| + 1
  {
    forall n :: 0 <= n < |es| ==>
      && (es[n].Start? ==> es[n].round == first + Starts(es, n) && Owed(ts, es, maxFailures, n) == {})
      && (es[n].Contact? ==> es[n].addr in Owed(ts, es, maxFailures, n))
  }

  /** Contacts made and owed follow the rounds up to the limit. */
  ghost predicate OnSchedule(
    ts: seq<Table>, es: seq<Event>, maxFailures: int, a: Addr, left: int, n: nat)
    requires |ts| == |es| + 1 && n <= |es|
  {
    var due := Contacts(es, a, n) + if a in Owed(ts, es, maxFailures, n) then 1 else 0;
    var k := Starts(es, n);
    (k <= left ==> due == k) && (k >= left ==> due >= left)
  }

  lemma {:induction false} KeepsSchedule(
    ts: seq<Table>, es: seq<Event>, maxFailures: int, first: nat, a: Addr, n: nat)
    requires maxFailures > 0 && Run(ts, es) && Quiet(es, a.ip) && Scheduled(ts, es, maxFailures, first)
    requires a in ts[0] && n <= |es|
    ensures OnSchedule(ts, es, maxFailures, a, maxFailures - ts[0][a].failures, n)
    decreases n
  {
    hide Step, Quiet;
    if n > 0 {
      KeepsSchedule(ts, es, maxFailures, first, a, n - 1);
      QuietPeerKeeps(ts, es, a, n - 1);
    }
  }

  /**
   A silent peer is contacted in each round until its failures reach the limit, and from
   then on in exactly every eighth round. It is advertised exactly until then.
   */
  lemma ParkingSchedule(
    ts: seq<Table>, es: seq<Event>, maxFailures: int, first: nat, a: Addr, n: nat)
    requires maxFailures > 0 && Run(ts, es) && Quiet(es, a.ip) && Scheduled(ts, es, maxFailures, first)
    requires a in ts[0] && n <= |es|
    ensures a in ts[n]
    ensures var left := maxFailures - ts[0][a].failures;
            && (Parked(ts[n][a], maxFailures) <==> Contacts(es, a, n) >= left)
            && (Advertisable(ts[n][a], maxFailures) <==> ts[0][a].state >= DESCRIBED && Contacts(es, a, n) < left)
            && (n < |es| && es[n].Start? ==>
                  && (Starts(es, n) <= left ==> Contacts(es, a, n) == Starts(es, n))
                  && (a in Targets(ts[n], es[n].round, maxFailures) <==>
                      Starts(es, n) < left || (first + Starts(es, n)) % RETRY_ROUNDS == 0))
  {
    hide Step, Quiet, Run, Starts, Contacts;
    QuietPeerKeeps(ts, es, a, n);
    KeepsSchedule(ts, es, maxFailures, first, a, n);
  }

  // ---------------------------------------------------------------- a peer that answers

  /** The event puts no other address with the peer's IP into the table. */
  ghost predicate NamesNoOther(e: Event, a: Addr) {
    match e
    case List(_, entries, _) => forall i :: 0 <= i < |entries| && entries[i].ip == a.ip ==> entries[i] == a
    case Seeds(seeds) => forall i :: 0 <= i < |seeds| && seeds[i].ip == a.ip ==> seeds[i] == a
    case Register(from, port, _, _) => from == a.ip ==> port == a.port
    case _ => true
  }

  /** A frame the peer, alone at its address, is heard by. */
  ghost predicate Heard(e: Event, a: Addr) {
    Replies(e, a.ip) || (e.Register? && Addr(e.from, e.port) == a && a.port != 0)
  }

  /** Contacts of the peer since it was last heard. */
  ghost function Missed(es: seq<Event>, a: Addr, before: nat, n: nat): nat
    requires n <= |es|
  {
    if n == 0 then before
    else if Heard(es[n - 1], a) then 0
    else Missed(es, a, before, n - 1) + if es[n - 1] == Contact(a) then 1 else 0
  }

  lemma LoneStep(t: Table, e: Event, u: Table, a: Addr)
    requires OnlyAt(t, a) && Step(t, e, u) && NamesNoOther(e, a)
    ensures OnlyAt(u, a)
    ensures u[a].failures == if Heard(e, a) then 0 else t[a].failures + if e == Contact(a) then 1 else 0
  {
    if IsFrame(e) && (e.List? || e.from != a.ip) { FrameInterferesWithNobody(t, e, u, a); }
    assert Known(t, a.ip);
  }

  /** For a peer alone at its address the failure count is just that, wherever the frames fall between contacts. */
  lemma {:induction false} FailuresAreMissed(ts: seq<Table>, es: seq<Event>, a: Addr, n: nat)
    requires Run(ts, es) && OnlyAt(ts[0], a) && n <= |es|
    requires forall i :: 0 <= i < |es| ==> NamesNoOther(es[i], a)
    ensures OnlyAt(ts[n], a) && ts[n][a].failures == Missed(es, a, ts[0][a].failures, n)
    decreases n
  {
    hide Step, NamesNoOther, OnlyAt, Heard;
    if n > 0 {
      FailuresAreMissed(ts, es, a, n - 1);
      LoneStep(ts[n - 1], es[n - 1], ts[n], a);
    }
  }

  /** The peer is heard between any two contacts, before or after the round counts them. */
  ghost predicate Answers(es: seq<Event>, a: Addr) {
    forall i, j :: 0 <= i < j < |es| && es[i] == Contact(a) && es[j] == Contact(a) ==>
      exists k :: i < k < j && Heard(es[k], a)
  }

  /** A contact after which the peer was not heard until `n`. */
  ghost predicate Unheard(es: seq<Event>, a: Addr, i: int, n: nat)
    requires n <= |es|
  {
    0 <= i < n && es[i] == Contact(a) && forall k :: i < k < n ==> !Heard(es[k], a)
  }

  /** At most one contact is ever unanswered, and there is one exactly after a contact not yet heard. */
  lemma {:induction false} AtMostOneMissed(es: seq<Event>, a: Addr, n: nat)
    requires Answers(es, a) && n <= |es|
    ensures Missed(es, a, 0, n) <= 1
    ensures Missed(es, a, 0, n) == 1 <==> exists i :: Unheard(es, a, i, n)
    decreases n
  {
    assert !Heard(Contact(a), a);
    hide Heard;
    if n == 0 { return; }
    var m := n - 1;
    AtMostOneMissed(es, a, m);
    if Heard(es[m], a) {
      assert forall i :: !Unheard(es, a, i, n);
    } else if es[m] == Contact(a) {
      assert Unheard(es, a, m, n);
      assert forall i :: !Unheard(es, a, i, m);
    } else if Missed(es, a, 0, m) == 1 {
      var i :| Unheard(es, a, i, m);
      assert Unheard(es, a, i, n);
    } else {
      assert forall i :: Unheard(es, a, i, n) ==> Unheard(es, a, i, m);
    }
  }

  /**
   A peer alone at its address that answers every contact before the next is never parked,
   except under a limit of one: there each contact parks it until it is heard.
   */
  lemma AnsweringPeer(ts: seq<Table>, es: seq<Event>, a: Addr, maxFailures: int)
    requires Run(ts, es) && OnlyAt(ts[0], a) && ts[0][a].failures == 0 && Answers(es, a)
    requires forall i :: 0 <= i < |es| ==> NamesNoOther(es[i], a)
    ensures forall n :: 0 <= n <= |es| ==> a in ts[n]
    ensures (exists n :: 0 <= n <= |es| && Parked(ts[n][a], maxFailures)) <==> maxFailures == 1 && Contact(a) in es
  {
    hide Step, NamesNoOther, Heard, Answers, Missed;
    forall n | 0 <= n <= |es|
      ensures a in ts[n] && ts[n][a].failures <= 1 && (ts[n][a].failures == 1 <==> exists i :: Unheard(es, a, i, n))
    {
      FailuresAreMissed(ts, es, a, n);
      AtMostOneMissed(es, a, n);
    }
    if Contact(a) in es {
      var i :| 0 <= i < |es| && es[i] == Contact(a);
      assert Unheard(es, a, i, i + 1);
      assert ts[i + 1][a].failures == 1;
    }
  }

  // ---------------------------------------------------------------- what a peer teaches

  function Highest(a: nat, b: nat): nat { if a < b then b else a }

  /** How far up a frame lifts a peer alone at its address. */
  ghost function Lift(e: Event, a: Addr): nat {
    match e
    case StatReply(from, stat, matches, _) => if from == a.ip && matches && stat.extended then 1 else 0
    case Description(from, name, desc, _) => if from == a.ip && ValidName(name, desc) then 2 else 0
    case Verification(from, _) => if from == a.ip then 3 else 0
    case Register(from, port, obfuscated, _) => if Addr(from, port) == a && port != 0 && obfuscated then 3 else 0
    case _ => 0
  }

  /** The frame brings the peer's key, and with it its ports and flags. */
  ghost predicate BringsKey(e: Event, a: Addr) { e.StatReply? && e.from == a.ip && e.matches && e.stat.extended }

  ghost predicate BringsName(e: Event, a: Addr) { e.Description? && e.from == a.ip && ValidName(e.name, e.desc) }

  /** Each accepted frame does exactly its part: keys by extended replies, names by descriptions, and the state by the best of them. */
  lemma LoneLearns(t: Table, e: Event, u: Table, a: Addr)
    requires OnlyAt(t, a) && Step(t, e, u) && NamesNoOther(e, a)
    ensures a in u && u[a].state == Highest(t[a].state, Lift(e, a))
    ensures if BringsKey(e, a) then
              u[a].key == e.stat.key && u[a].udpPort == e.stat.udpPort && u[a].tcpPort == e.stat.tcpPort && u[a].flags == e.stat.flags
            else
              u[a].key == t[a].key && u[a].udpPort == t[a].udpPort && u[a].tcpPort == t[a].tcpPort && u[a].flags == t[a].flags
    ensures if BringsName(e, a) then u[a].name == e.name && u[a].desc == e.desc
            else u[a].name == t[a].name && u[a].desc == t[a].desc
    ensures if e.StatReply? && e.from == a.ip && e.matches then u[a].users == e.stat.users && u[a].files == e.stat.files
            else u[a].users == t[a].users && u[a].files == t[a].files
    ensures u[a].verifiedAt == if Lift(e, a) >= 2 then e.at else t[a].verifiedAt
  {
    if IsFrame(e) && (e.List? || e.from != a.ip) { FrameInterferesWithNobody(t, e, u, a); }
    assert Known(t, a.ip);
  }

  ghost function Best(es: seq<Event>, a: Addr, n: nat): nat
    requires n <= |es|
  {
    if n == 0 then 0 else Highest(Best(es, a, n - 1), Lift(es[n - 1], a))
  }

  /** In every run the key and the name of such a peer are those of its last frame that brought one, and its state is the highest reached. */
  lemma {:induction false} LonePeerLearns(ts: seq<Table>, es: seq<Event>, a: Addr, n: nat, i: nat)
    requires Run(ts, es) && OnlyAt(ts[0], a) && i < n <= |es|
    requires forall j :: 0 <= j < |es| ==> NamesNoOther(es[j], a)
    ensures a in ts[0] && a in ts[n] && ts[n][a].state == Highest(ts[0][a].state, Best(es, a, n))
    ensures BringsKey(es[i], a) && (forall j :: i < j < n ==> !BringsKey(es[j], a)) ==> ts[n][a].key == es[i].stat.key
    ensures BringsName(es[i], a) && (forall j :: i < j < n ==> !BringsName(es[j], a)) ==> ts[n][a].name == es[i].name
    decreases n
  {
    hide Step, NamesNoOther, Lift, BringsKey, BringsName;
    FailuresAreMissed(ts, es, a, n - 1);
    LoneLearns(ts[n - 1], es[n - 1], ts[n], a);
    if i < n - 1 {
      LonePeerLearns(ts, es, a, n - 1, i);
    } else if n > 1 {
      LonePeerLearns(ts, es, a, n - 1, 0);
    }
    IsBrought(es[i], a);
  }

  lemma IsBrought(e: Event, a: Addr)
    ensures BringsKey(e, a) ==> e.StatReply?
    ensures BringsName(e, a) ==> e.Description?
  {
  }

  /** Names that are fit to show: at most 255 and 512 long, no control characters. */
  ghost predicate Showable(p: Peer) {
    && |p.name| <= 255 && |p.desc| <= 512
    && (forall i :: 0 <= i < |p.name| ==> p.name[i] >= 0x20 as char && p.name[i] != 0x7f as char)
    && (forall i :: 0 <= i < |p.desc| ==> p.desc[i] >= 0x20 as char && p.desc[i] != 0x7f as char)
  }

  lemma StepShowable(t: Table, e: Event, u: Table)
    requires Step(t, e, u) && forall a :: a in t ==> Showable(t[a])
    ensures forall a :: a in u ==> Showable(u[a])
  {
    forall a | a in u ensures Showable(u[a]) {
      if a in t { assert Showable(t[a]); }
    }
  }

  /** Nothing else ever gets into the table, whoever sends it. */
  lemma {:induction false} NamesShowable(ts: seq<Table>, es: seq<Event>, n: nat)
    requires Run(ts, es) && n <= |es| && forall a :: a in ts[0] ==> Showable(ts[0][a])
    ensures forall a :: a in ts[n] ==> Showable(ts[n][a])
    decreases n
  {
    hide Step, Showable;
    if n > 0 {
      NamesShowable(ts, es, n - 1);
      StepShowable(ts[n - 1], es[n - 1], ts[n]);
    }
  }

  // ---------------------------------------------------------------- the handler

  class GossipHandler {
    const maxServers: int
    const maxFailures: int
    /** Whether an address is one a server can have (IsGoodServerEntry). */
    const usable: Addr -> bool
    var peers: Table
    var round: nat
    /** When an address was last a connected client. */
    var clients: map<nat, int>
    var locals: set<nat>

    constructor (maxServers: int, maxFailures: int, usable: Addr -> bool)
      ensures this.maxServers == maxServers && this.maxFailures == maxFailures && this.usable == usable
      ensures peers == map[] && round == 0
    {
      this.maxServers, this.maxFailures, this.usable := maxServers, maxFailures, usable;
      peers, round, clients, locals := map[], 0, map[], {};
    }

    /** The merge policy for an address that is not in the table. */
    predicate AdmissibleTo(t: Table, addr: Addr, now: int)
      reads this`clients, this`locals
    {
      && usable(addr) && addr.ip !in locals
      && !(addr.ip in clients && now - clients[addr.ip] < CLIENT_WINDOW)
      && (maxServers > 0 ==> |t| < maxServers)
    }

    method Admit(addr: Addr, now: int) returns (ok: bool)
      modifies this`peers
      ensures ok == (addr.port != 0 && (addr in old(peers) || AdmissibleTo(old(peers), addr, now)))
      ensures peers == Admitted(old(peers), addr, now)
      ensures ok <==> || (addr in old(peers) && addr.port != 0)
                      || (&& addr.port != 0 && usable(addr) && addr.ip !in locals
                          && (addr.ip in clients ==> now - clients[addr.ip] >= 1_800_000)
                          && (maxServers <= 0 || |old(peers)| < maxServers))
      ensures peers == if ok && addr !in old(peers) then old(peers)[addr := NEW_PEER] else old(peers)
    {
      if addr.port == 0 {
        return false;
      }
      if addr in peers {
        return true;
      }
      if !usable(addr) || addr.ip in locals {
        return false;
      }
      if addr.ip in clients && now - clients[addr.ip] < CLIENT_WINDOW {
        return false;
      }
      if maxServers > 0 && |peers| >= maxServers {
        return false;
      }
      peers := peers[addr := NEW_PEER];
      return true;
    }

    /** The table after one address was put to the policy, and after a list of them. */
    function Admitted(t: Table, addr: Addr, now: int): Table
      reads this`clients, this`locals
    {
      if addr.port != 0 && addr !in t && AdmissibleTo(t, addr, now) then t[addr := NEW_PEER] else t
    }

    function Merged(t: Table, entries: seq<Addr>, now: int): Table
      reads this`clients, this`locals
    {
      if entries == [] then t
      else Admitted(Merged(t, entries[..|entries| - 1], now), entries[|entries| - 1], now)
    }

    /** How many of the entries the policy accepts, known ones included. */
    function Accepted(t: Table, entries: seq<Addr>, now: int): nat
      reads this`clients, this`locals
    {
      if entries == [] then 0
      else
        var n := |entries| - 1;
        var m := Merged(t, entries[..n], now);
        Accepted(t, entries[..n], now) +
        if entries[n].port != 0 && (entries[n] in m || AdmissibleTo(m, entries[n], now)) then 1 else 0
    }

    /** Any entry at the address: the map is walked in no particular order. */
    method FindByIP(ip: nat) returns (found: Option<Addr>)
      ensures found.Some? ==> found.value in peers && found.value.ip == ip
      ensures found.Some? <==> Known(peers, ip)
    {
      var todo := peers.Keys;
      while todo != {}
        invariant todo <= peers.Keys && forall a :: a in peers && a !in todo ==> a.ip != ip
        decreases |todo|
      {
        var a :| a in todo;
        if a.ip == ip {
          return Some(a);
        }
        todo := todo - {a};
      }
      return None;
    }

    method MergePeerList(from: nat, entries: seq<Addr>, obfuscated: bool, now: int) returns (admitted: nat)
      modifies this`peers
      ensures Step(old(peers), List(from, entries, obfuscated), peers)
      ensures (peers == old(peers) && admitted == 0)
              || (peers == Merged(old(peers), entries, now) && admitted == Accepted(old(peers), entries, now))
      ensures obfuscated && OnlyKeyedAt(old(peers), from) ==>
                peers == Merged(old(peers), entries, now) && admitted == Accepted(old(peers), entries, now)
    {
      admitted := 0;
      if !obfuscated {
        return;
      }
      var sender := FindByIP(from);
      if sender.None? || peers[sender.value].state < KEYED {
        return;
      }
      MergedGrown(peers, entries, now);
      admitted := MergeAll(entries, now);
    }

    lemma {:induction false} MergedGrown(t: Table, entries: seq<Addr>, now: int)
      ensures Grown(t, Merged(t, entries, now))
      ensures forall a :: a in Merged(t, entries, now) && a !in t ==> a in entries
      decreases entries
    {
      hide AdmissibleTo;
      if entries != [] {
        MergedGrown(t, entries[..|entries| - 1], now);
      }
    }

    /** An address a server may have, not ours, and not a client's of the last half hour. */
    ghost predicate Fit(a: Addr, now: int)
      reads this`clients, this`locals
    {
      a.port != 0 && usable(a) && a.ip !in locals && (a.ip in clients ==> now - clients[a.ip] >= 1_800_000)
    }

    /** What the policy does with one address. */
    lemma AdmittedFits(t: Table, a: Addr, now: int)
      ensures var u := Admitted(t, a, now);
              && (u == t || (a !in t && Fit(a, now) && (maxServers > 0 ==> |t| < maxServers) && u == t[a := NEW_PEER]))
              && |t| <= |u| <= |t| + 1
              && (Fit(a, now) && (maxServers <= 0 || |t| < maxServers) ==> a in u)
    {
      var u := Admitted(t, a, now);
      if a !in t && u != t { assert |u| == |t| + 1; }
    }

    /** A list brings in fit addresses only, never above the table's size, and every one of them when there is room for all. */
    lemma {:induction false} MergedFits(t: Table, entries: seq<Addr>, now: int)
      ensures forall a :: a in Merged(t, entries, now) && a !in t ==> Fit(a, now)
      ensures |Merged(t, entries, now)| <= |t| + |entries|
      ensures maxServers > 0 ==> |Merged(t, entries, now)| <= if |t| < maxServers then maxServers else |t|
      ensures maxServers <= 0 || |t| + |entries| <= maxServers ==>
                forall i :: 0 <= i < |entries| && Fit(entries[i], now) ==> entries[i] in Merged(t, entries, now)
      decreases entries
    {
      if entries == [] { return; }
      var n := |entries| - 1;
      var m := Merged(t, entries[..n], now);
      MergedFits(t, entries[..n], now);
      assert Merged(t, entries, now) == Admitted(m, entries[n], now);
      hide Merged, Admitted, AdmissibleTo, Fit;
      AdmittedFits(m, entries[n], now);
      forall i | 0 <= i < n && Fit(entries[i], now) && (maxServers <= 0 || |t| + |entries| <= maxServers) ensures entries[i] in m {
        assert entries[..n][i] == entries[i];
      }
    }

    method MergeAll(entries: seq<Addr>, now: int) returns (admitted: nat)
      modifies this`peers
      ensures peers == Merged(old(peers), entries, now) && admitted == Accepted(old(peers), entries, now)
    {
      hide AdmissibleTo;
      admitted := 0;
      for i := 0 to |entries|
        invariant peers == Merged(old(peers), entries[..i], now) && admitted == Accepted(old(peers), entries[..i], now)
      {
        assert entries[..i + 1][..i] == entries[..i];
        var ok := Admit(entries[i], now);
        if ok {
          admitted := admitted + 1;
        }
      }
      assert entries[..|entries|] == entries;
    }

    method NoteRegistration(from: nat, port: nat, obfuscated: bool, now: int)
      modifies this`peers
      ensures Step(old(peers), Register(from, port, obfuscated, now), peers)
      ensures var a := Addr(from, port);
              var m := Admitted(old(peers), a, now);
              peers == if port == 0 || a !in m then m else m[a := Announced(m[a], obfuscated, now)]
    {
      var addr := Addr(from, port);
      var ok := Admit(addr, now);
      if !ok {
        return;
      }
      var p := peers[addr].(failures := 0);
      peers := peers[addr := if obfuscated then Promoted(p, VERIFIED, now) else p];
    }

    /** A reply goes to the entry the lookup finds. */
    method Take(from: nat, r: Reply, now: int) returns (known: bool)
      modifies this`peers
      ensures known == Known(old(peers), from) && OneReplied(old(peers), from, r, now, peers)
    {
      hide Replied;
      var a := FindByIP(from);
      if a.None? {
        return false;
      }
      peers := peers[a.value := Replied(peers[a.value], r, now)];
      return true;
    }

    method NoteStatRes(from: nat, stat: Stat, matches: bool, now: int)
      modifies this`peers
      ensures Step(old(peers), StatReply(from, stat, matches, now), peers)
      ensures forall a :: OnlyAt(old(peers), a) && a.ip == from && matches && stat.extended ==>
                && a in peers && peers[a].key == stat.key && peers[a].udpPort == stat.udpPort && peers[a].tcpPort == stat.tcpPort
                && peers[a].flags == stat.flags && peers[a].state >= KEYED
    {
      if matches {
        var known := Take(from, StatedAs(stat), now);
      }
      ghost var e := StatReply(from, stat, matches, now);
      forall a | OnlyAt(old(peers), a) && a.ip == from && matches && stat.extended
        ensures a in peers && peers[a].key == stat.key && peers[a].udpPort == stat.udpPort && peers[a].tcpPort == stat.tcpPort
        ensures peers[a].flags == stat.flags && peers[a].state >= KEYED
      {
        LoneLearns(old(peers), e, peers, a);
      }
    }

    method NoteDescription(from: nat, name: string, desc: string, now: int) returns (ok: bool)
      modifies this`peers
      ensures Step(old(peers), Description(from, name, desc, now), peers)
      ensures ok == (Known(old(peers), from) && ValidName(name, desc))
      ensures forall a :: OnlyAt(old(peers), a) && a.ip == from && ok ==>
                a in peers && peers[a].name == name && peers[a].desc == desc && peers[a].state >= DESCRIBED
    {
      if !ValidName(name, desc) {
        return false;
      }
      ok := Take(from, NamedAs(name, desc), now);
      ghost var e := Description(from, name, desc, now);
      forall a | OnlyAt(old(peers), a) && a.ip == from
        ensures a in peers && peers[a].name == name && peers[a].desc == desc && peers[a].state >= DESCRIBED
      {
        LoneLearns(old(peers), e, peers, a);
      }
    }

    method NoteVerified(from: nat, now: int)
      modifies this`peers
      ensures Step(old(peers), Verification(from, now), peers)
    {
      var known := Take(from, VerifiedAs, now);
    }

    /** A seed enters unless it is there already or is one of our own addresses. */
    function Seeded(t: Table, seeds: seq<Addr>): Table
      reads this`locals
    {
      if seeds == [] then t
      else
        var m := Seeded(t, seeds[..|seeds| - 1]);
        var a := seeds[|seeds| - 1];
        if a.port != 0 && a !in m && a.ip !in locals then m[a := NEW_PEER] else m
    }

    lemma {:induction false} SeededExactly(t: Table, seeds: seq<Addr>)
      ensures Grown(t, Seeded(t, seeds))
      ensures forall a :: a in Seeded(t, seeds) <==> a in t || (a in seeds && a.port != 0 && a.ip !in locals)
      decreases seeds
    {
      if seeds != [] {
        var n := |seeds| - 1;
        SeededExactly(t, seeds[..n]);
        assert seeds == seeds[..n] + [seeds[n]];
      }
    }

    method AddSeeds(seeds: seq<Addr>) returns (added: nat)
      modifies this`peers
      ensures Step(old(peers), Seeds(seeds), peers)
      ensures |peers| == |old(peers)| + added
      ensures forall a :: a in peers <==> a in old(peers) || (a in seeds && a.port != 0 && a.ip !in locals)
    {
      added := 0;
      for i := 0 to |seeds|
        invariant peers == Seeded(old(peers), seeds[..i]) && |peers| == |old(peers)| + added
      {
        assert seeds[..i + 1][..i] == seeds[..i];
        if seeds[i].port != 0 && seeds[i] !in peers && seeds[i].ip !in locals {
          peers := peers[seeds[i] := NEW_PEER];
          added := added + 1;
        }
      }
      assert seeds[..|seeds|] == seeds;
      SeededExactly(old(peers), seeds);
    }

    method ContactableForRound() returns (out: set<Addr>)
      modifies this`round
      ensures round == old(round) + 1
      ensures out == Targets(peers, round, maxFailures)
    {
      round := round + 1;
      var retryParked := round % RETRY_ROUNDS == 0;
      out := {};
      var todo := peers.Keys;
      while todo != {}
        invariant todo <= peers.Keys && out == set a | a in peers && a !in todo && Contacted(peers[a], round, maxFailures)
        decreases |todo|
      {
        var a :| a in todo;
        if retryParked || !Parked(peers[a], maxFailures) {
          out := out + {a};
        }
        todo := todo - {a};
      }
    }

    method NoteRoundFailure(a: Addr)
      modifies this`peers
      ensures Step(old(peers), Contact(a), peers)
    {
      if a in peers {
        peers := peers[a := peers[a].(failures := peers[a].failures + 1)];
      }
    }

    /** One round with no frame in between, as a run: its start and one contact for each target. */
    method RunRound() returns (order: seq<Addr>, ghost ts: seq<Table>)
      modifies this`peers, this`round
      ensures round == old(round) + 1
      ensures forall a :: a in order <==> a in Targets(old(peers), round, maxFailures)
      ensures forall i, j :: 0 <= i < j < |order| ==> order[i] != order[j]
      ensures Run(ts, RoundEvents(round, order)) && ts[0] == old(peers) && ts[|order| + 1] == peers
    {
      var todo := ContactableForRound();
      order := [];
      ts := [peers, peers];
      while todo != {}
        invariant round == old(round) + 1
        invariant forall a :: a in order || a in todo <==> a in Targets(old(peers), round, maxFailures)
        invariant forall i :: 0 <= i < |order| ==> order[i] !in todo
        invariant forall i, j :: 0 <= i < j < |order| ==> order[i] != order[j]
        invariant Run(ts, RoundEvents(round, order)) && ts[0] == old(peers) && ts[|order| + 1] == peers
        decreases |todo|
      {
        hide Step, Targets;
        var a :| a in todo;
        NoteRoundFailure(a);
        assert RoundEvents(round, order + [a]) == RoundEvents(round, order) + [Contact(a)];
        order := order + [a];
        ts := ts + [peers];
        todo := todo - {a};
      }
    }

    /** Everything at the admission bar that is not parked, the newest first. */
    method Advertised() returns (out: seq<Addr>)
      ensures forall a :: a in out <==> a in peers && Advertisable(peers[a], maxFailures)
      ensures forall i, j :: 0 <= i < j < |out| ==> out[i] != out[j] && peers[out[i]].verifiedAt >= peers[out[j]].verifiedAt
    {
      out := [];
      var todo := peers.Keys;
      while todo != {}
        invariant todo <= peers.Keys
        invariant forall a :: a in out <==> a in peers && a !in todo && Advertisable(peers[a], maxFailures)
        invariant NewestFirst(peers, out)
        decreases |todo|
      {
        var a :| a in todo;
        if peers[a].state >= DESCRIBED && !Parked(peers[a], maxFailures) {
          out := Inserted(peers, out, a);
        }
        todo := todo - {a};
      }
    }
  }

  ghost function RoundEvents(round: nat, order: seq<Addr>): seq<Event> {
    [Start(round)] + seq(|order|, i requires 0 <= i < |order| => Contact(order[i]))
  }

  ghost predicate NewestFirst(t: Table, out: seq<Addr>) {
    && (forall i :: 0 <= i < |out| ==> out[i] in t)
    && (forall i, j :: 0 <= i < j < |out| ==> out[i] != out[j] && t[out[i]].verifiedAt >= t[out[j]].verifiedAt)
  }

  function Inserted(t: Table, out: seq<Addr>, a: Addr): (r: seq<Addr>)
    requires a in t && a !in out && NewestFirst(t, out)
    ensures NewestFirst(t, r) && forall b :: b in r <==> b == a || b in out
  {
    if out == [] then [a]
    else if t[a].verifiedAt >= t[out[0]].verifiedAt then [a] + out
    else
      var r := Inserted(t, out[1..], a);
      assert out == [out[0]] + out[1..];
      assert forall i :: 0 <= i < |r| ==> r[i] in r;
      [out[0]] + r
  }
}
