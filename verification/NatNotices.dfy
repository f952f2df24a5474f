/**
 Foreign callbacks over whole runs: keepalives, fallback timers, requests, logins and
 logouts interleave between the critical sections of ed2k/natcallback.go. A notice tells a
 requester where a target is; the machine records each one, the proofs the server
 accepted, and every requester it took off a list.
 */
module NatNotices {
  import opened Bytes
  import opened NatCallback

  /** A handler between two of its critical sections. */
  datatype Flight =
    | Checked(session: nat, id: nat, ep: Recent)
    | Remembered(session: nat, id: nat, ep: Recent)
    | Fired(id: nat, list: seq<Pending>)
    | Viewed(id: nat, session: nat, list: seq<Pending>)
    | Second(id: nat, session: nat, list: seq<Pending>)

  /** What a requester was told: the endpoint of this session. */
  datatype Notice = Notice(session: nat, ipv4: nat, port: nat, ticket: nat)

  datatype Batch = Batch(target: nat, gen: nat)

  datatype N = N(
    ip: map<nat, nat>, lowIds: map<nat, nat>, sessions: map<nat, Session>,
    foreign: Foreign, own: map<nat, Recent>, keepalives: map<nat, Recent>,
    timers: set<Batch>, flights: map<nat, Flight>,
    // what happened so far
    next: nat, joined: map<nat, Batch>, proofs: set<(nat, nat)>, taken: seq<nat>, notices: seq<Notice>)

  datatype Action =
    | Login(c: nat, id: nat, ipv4: nat)
    | Logout(id: nat)
    | Token(c: nat, token: seq<Byte>)
    | OwnRequest(id: nat, ipv4: nat, port: nat, now: int)
    | Request(id: nat, ipv4: nat, port: nat, now: int)
    // a keepalive: checked, its endpoint kept, the requesters told
    | Keep(f: nat, id: nat, k: Keepalive, src: Option<nat>, port: nat, now: int)
    | Remember(f: nat)
    | Tell(f: nat, now: int)
    // a fallback: its batch taken, the session looked up, its own request tried, its keepalive tried
    | Fire(f: nat, batch: Batch, now: int)
    | View(f: nat)
    | TryOwn(f: nat, now: int)
    | TryKeepalive(f: nat, now: int)

  ghost predicate Enabled(n: N, a: Action) {
    match a
    case Login(c, _, _) => c !in n.ip
    case Logout(id) => id in n.lowIds
    case Token(c, _) => c in n.ip
    case OwnRequest(_, _, _, _) => true
    case Request(_, _, _, _) => true
    case Keep(f, id, k, src, _, _) =>
      && f !in n.flights && id in n.lowIds && n.lowIds[id] in n.ip
      && (src.Some? ==> k.sameIP == (src.value == n.ip[n.lowIds[id]]))
    case Remember(f) => f in n.flights && n.flights[f].Checked?
    case Tell(f, _) => f in n.flights && n.flights[f].Remembered?
    case Fire(f, batch, _) => f !in n.flights && batch in n.timers
    case View(f) => f in n.flights && n.flights[f].Fired?
    case TryOwn(f, _) => f in n.flights && n.flights[f].Viewed? && n.flights[f].session in n.ip
    case TryKeepalive(f, _) => f in n.flights && n.flights[f].Second? && n.flights[f].session in n.ip
  }

  function StateOf(n: N, c: nat): Option<Session> { if c in n.sessions then Some(n.sessions[c]) else None }

  function WithState(m: map<nat, Session>, c: nat, st: Option<Session>): map<nat, Session> {
    if st.Some? then m[c := st.value] else m - {c}
  }

  function Tickets(list: seq<Pending>): seq<nat> {
    seq(|list|, i requires 0 <= i < |list| => list[i].ticket)
  }

  function Notices(c: nat, ipv4: nat, port: nat, list: seq<Pending>): seq<Notice> {
    seq(|list|, i requires 0 <= i < |list| => Notice(c, ipv4, port, list[i].ticket))
  }

  /** The handler answers the requesters it took and is done. */
  function Answer(n: N, f: nat, c: nat, ep: Recent, list: seq<Pending>): N {
    n.(flights := n.flights - {f}, notices := n.notices + Notices(c, ep.ipv4, ep.port, list))
  }

  /** The requesters waiting for a target leave its list. */
  function TakeAll(n: N, t: nat, now: int): N {
    n.(foreign := Removed(n.foreign, t), taken := n.taken + Tickets(Taken(n.foreign, t, now)))
  }

  function Requested(n: N, id: nat, p: Pending): N {
    var f := NatCallback.Add(n.foreign, id, p);
    var batch := Batch(id, f.waits[id].gen);
    n.(foreign := f, next := n.next + 1, joined := n.joined[p.ticket := batch],
    timers := if Waiting(Swept(n.foreign, p.at), id, p.at) then n.timers else n.timers + {batch})
  }

  ghost function Kept(mac: Mac, n: N, a: Action): N
    requires a.Keep? && Enabled(n, a)
  {
    var c := n.lowIds[a.id];
    var st := StateOf(n, c);
    var m := n.(sessions := WithState(n.sessions, c, Heard(mac, st, a.k)));
    if !Believed(mac, st, a.k) || a.src.None? then m
    else
      m.(flights := n.flights[a.f := Checked(c, a.id, Recent(a.src.value, a.port, a.now, c, ProofForm(a.k) && !a.k.sameIP))],
      proofs := if ProofForm(a.k) then n.proofs + {(c, a.src.value)} else n.proofs)
  }

  function RememberStep(n: N, f: nat): N
    requires f in n.flights && n.flights[f].Checked?
  {
    var g := n.flights[f];
    n.(keepalives := n.keepalives[g.id := g.ep], flights := n.flights[f := Remembered(g.session, g.id, g.ep)])
  }

  function TellStep(n: N, f: nat, now: int): N
    requires f in n.flights && n.flights[f].Remembered?
  {
    var g := n.flights[f];
    Answer(TakeAll(n, g.id, now), f, g.session, g.ep, Taken(n.foreign, g.id, now))
  }

  function FireStep(n: N, f: nat, batch: Batch, now: int): N {
    var m := n.(timers := n.timers - {batch});
    if HasGen(n.foreign, batch.target, batch.gen) then
      TakeAll(m, batch.target, now).(flights := n.flights[f := Fired(batch.target, Taken(n.foreign, batch.target, now))])
    else m
  }

  function ViewStep(n: N, f: nat): N
    requires f in n.flights && n.flights[f].Fired?
  {
    var g := n.flights[f];
    if g.id in n.lowIds then n.(flights := n.flights[f := Viewed(g.id, n.lowIds[g.id], g.list)])
    else n.(flights := n.flights - {f})
  }

  function TryOwnStep(n: N, f: nat, now: int): N
    requires f in n.flights && n.flights[f].Viewed? && n.flights[f].session in n.ip
  {
    var g := n.flights[f];
    if g.id in n.own && now - n.own[g.id].at <= WINDOW && n.own[g.id].ipv4 == n.ip[g.session] then
      Answer(n, f, g.session, n.own[g.id], g.list)
    else n.(flights := n.flights[f := Second(g.id, g.session, g.list)])
  }

  function TryKeepaliveStep(n: N, f: nat, now: int): N
    requires f in n.flights && n.flights[f].Second? && n.flights[f].session in n.ip
  {
    var g := n.flights[f];
    if && g.id in n.keepalives && now - n.keepalives[g.id].at <= KEEPALIVE_TTL && n.keepalives[g.id].owner == g.session
       && (n.keepalives[g.id].ipv4 == n.ip[g.session] || n.keepalives[g.id].proven)
    then Answer(n, f, g.session, n.keepalives[g.id], g.list)
    else n.(flights := n.flights - {f})
  }

  ghost function Do(mac: Mac, n: N, a: Action): N
    requires Enabled(n, a)
  {
    match a
    case Login(c, id, ipv4) => n.(ip := n.ip[c := ipv4], lowIds := n.lowIds[id := c])
    case Logout(id) => n.(lowIds := n.lowIds - {id}, sessions := n.sessions - {n.lowIds[id]})
    case Token(c, token) => n.(sessions := n.sessions[c := Session(Some(token), 0, false)])
    case OwnRequest(id, ipv4, port, now) => n.(own := n.own[id := Recent(ipv4, port, now, 0, false)])
    case Request(id, ipv4, port, now) => Requested(n, id, Pending(ipv4, port, now, n.next))
    case Keep(_, _, _, _, _, _) => Kept(mac, n, a)
    case Remember(f) => RememberStep(n, f)
    case Tell(f, now) => TellStep(n, f, now)
    case Fire(f, batch, now) => FireStep(n, f, batch, now)
    case View(f) => ViewStep(n, f)
    case TryOwn(f, now) => TryOwnStep(n, f, now)
    case TryKeepalive(f, now) => TryKeepaliveStep(n, f, now)
  }

  // ---------------------------------------------------------------- the endpoints handed out

  /** An address of the session: its own, or one it proved with its token. */
  ghost predicate Theirs(n: N, c: nat, ipv4: nat) {
    c in n.ip && (ipv4 == n.ip[c] || (c, ipv4) in n.proofs)
  }

  ghost predicate FlightTheirs(n: N, g: Flight) {
    match g
    case Checked(c, _, ep) => ep.owner == c && Theirs(n, c, ep.ipv4)
    case Remembered(c, _, ep) => ep.owner == c && Theirs(n, c, ep.ipv4)
    case Fired(_, _) => true
    case Viewed(_, c, _) => c in n.ip
    case Second(_, c, _) => c in n.ip
  }

  ghost predicate EndpointInv(n: N) {
    && (forall id :: id in n.lowIds ==> n.lowIds[id] in n.ip)
    && (forall f :: f in n.flights ==> FlightTheirs(n, n.flights[f]))
    && (forall id :: id in n.keepalives ==> Theirs(n, n.keepalives[id].owner, n.keepalives[id].ipv4))
    && (forall i :: 0 <= i < |n.notices| ==> Theirs(n, n.notices[i].session, n.notices[i].ipv4))
  }

  /** Addresses and proofs only grow, so what was theirs stays theirs; only what is new has to be shown. */
  lemma StaysTheirs(n: N, m: N)
    requires EndpointInv(n) && n.proofs <= m.proofs
    requires forall c :: c in n.ip ==> c in m.ip && m.ip[c] == n.ip[c]
    requires forall id :: id in m.lowIds ==> (id in n.lowIds && m.lowIds[id] == n.lowIds[id]) || m.lowIds[id] in m.ip
    requires forall f :: f in m.flights ==> (f in n.flights && m.flights[f] == n.flights[f]) || FlightTheirs(m, m.flights[f])
    requires forall id :: id in m.keepalives ==>
               || (id in n.keepalives && m.keepalives[id] == n.keepalives[id])
               || Theirs(m, m.keepalives[id].owner, m.keepalives[id].ipv4)
    requires n.notices <= m.notices
    requires forall i :: |n.notices| <= i < |m.notices| ==> Theirs(m, m.notices[i].session, m.notices[i].ipv4)
    ensures EndpointInv(m)
  {
    forall f | f in m.flights ensures FlightTheirs(m, m.flights[f]) {
      if f in n.flights && m.flights[f] == n.flights[f] { assert FlightTheirs(n, n.flights[f]); }
    }
    forall id | id in m.keepalives ensures Theirs(m, m.keepalives[id].owner, m.keepalives[id].ipv4) {
      if id in n.keepalives && m.keepalives[id] == n.keepalives[id] {
        assert Theirs(n, n.keepalives[id].owner, n.keepalives[id].ipv4);
      }
    }
    forall i | 0 <= i < |n.notices| ensures Theirs(m, m.notices[i].session, m.notices[i].ipv4) {
      assert Theirs(n, n.notices[i].session, n.notices[i].ipv4);
    }
  }

  lemma AnswerTheirs(n: N, f: nat, c: nat, ep: Recent, list: seq<Pending>)
    requires EndpointInv(n) && Theirs(n, c, ep.ipv4)
    ensures EndpointInv(Answer(n, f, c, ep, list))
  {
    StaysTheirs(n, Answer(n, f, c, ep, list));
  }

  lemma TakeTheirs(n: N, t: nat, now: int)
    requires EndpointInv(n)
    ensures EndpointInv(TakeAll(n, t, now))
  {
    hide Live, Tickets;
    StaysTheirs(n, TakeAll(n, t, now));
  }

  lemma TellTheirs(n: N, f: nat, now: int)
    requires EndpointInv(n) && f in n.flights && n.flights[f].Remembered?
    ensures EndpointInv(TellStep(n, f, now))
  {
    var g := n.flights[f];
    assert FlightTheirs(n, g);
    hide EndpointInv, Answer, Taken;
    TakeTheirs(n, g.id, now);
    AnswerTheirs(TakeAll(n, g.id, now), f, g.session, g.ep, Taken(n.foreign, g.id, now));
  }

  lemma TryTheirs(n: N, f: nat, now: int)
    requires EndpointInv(n) && f in n.flights && (n.flights[f].Viewed? || n.flights[f].Second?)
    ensures n.flights[f].session in n.ip
    ensures n.flights[f].Viewed? ==> EndpointInv(TryOwnStep(n, f, now))
    ensures n.flights[f].Second? ==> EndpointInv(TryKeepaliveStep(n, f, now))
  {
    var g := n.flights[f];
    assert FlightTheirs(n, g);
    assert g.id in n.keepalives ==> Theirs(n, n.keepalives[g.id].owner, n.keepalives[g.id].ipv4);
    PutTheirs(n, f, Second(g.id, g.session, g.list));
    hide EndpointInv, Answer;
    if g.Viewed? && g.id in n.own && n.own[g.id].ipv4 == n.ip[g.session] {
      AnswerTheirs(n, f, g.session, n.own[g.id], g.list);
    }
    if g.Second? && g.id in n.keepalives && n.keepalives[g.id].owner == g.session {
      AnswerTheirs(n, f, g.session, n.keepalives[g.id], g.list);
    }
  }

  lemma FireTheirs(n: N, f: nat, batch: Batch, now: int)
    requires EndpointInv(n)
    ensures EndpointInv(FireStep(n, f, batch, now))
  {
    var m := n.(timers := n.timers - {batch});
    StaysTheirs(n, m);
    TakeTheirs(m, batch.target, now);
    hide Taken, HasGen;
    var k := TakeAll(m, batch.target, now);
    assert k.flights == n.flights;
    hide TakeAll;
    PutTheirs(k, f, Fired(batch.target, Taken(n.foreign, batch.target, now)));
  }

  lemma PutTheirs(n: N, f: nat, g: Flight)
    requires EndpointInv(n) && FlightTheirs(n, g)
    ensures EndpointInv(n.(flights := n.flights[f := g])) && EndpointInv(n.(flights := n.flights - {f}))
  {
    StaysTheirs(n, n.(flights := n.flights[f := g]));
    StaysTheirs(n, n.(flights := n.flights - {f}));
  }

  lemma ViewTheirs(n: N, f: nat)
    requires EndpointInv(n) && f in n.flights && n.flights[f].Fired?
    ensures EndpointInv(ViewStep(n, f))
  {
    var g := n.flights[f];
    if g.id in n.lowIds { PutTheirs(n, f, Viewed(g.id, n.lowIds[g.id], g.list)); }
    PutTheirs(n, f, g);
    hide EndpointInv;
  }

  lemma RememberTheirs(n: N, f: nat)
    requires EndpointInv(n) && f in n.flights && n.flights[f].Checked?
    ensures EndpointInv(RememberStep(n, f))
  {
    var g := n.flights[f];
    assert FlightTheirs(n, g);
    var m := n.(keepalives := n.keepalives[g.id := g.ep]);
    StaysTheirs(n, m);
    hide EndpointInv;
    PutTheirs(m, f, Remembered(g.session, g.id, g.ep));
  }

  /** A keepalive without a good proof is believed only from the session's own address. */
  lemma KeepTheirs(mac: Mac, n: N, a: Action)
    requires EndpointInv(n) && a.Keep? && Enabled(n, a)
    ensures EndpointInv(Kept(mac, n, a))
  {
    hide Heard, GoodProof;
    StaysTheirs(n, Kept(mac, n, a));
  }

  lemma RequestTheirs(n: N, id: nat, p: Pending)
    requires EndpointInv(n)
    ensures EndpointInv(Requested(n, id, p))
  {
    hide Swept, Live, Queued;
    StaysTheirs(n, Requested(n, id, p));
  }

  lemma DoTheirs(mac: Mac, n: N, a: Action)
    requires EndpointInv(n) && Enabled(n, a)
    ensures EndpointInv(Do(mac, n, a))
  {
    match a
    case Keep(_, _, _, _, _, _) => KeepTheirs(mac, n, a);
    case Tell(f, now) => TellTheirs(n, f, now);
    case Fire(f, batch, now) => FireTheirs(n, f, batch, now);
    case View(f) => ViewTheirs(n, f);
    case Remember(f) => RememberTheirs(n, f);
    case TryOwn(f, now) => TryTheirs(n, f, now);
    case TryKeepalive(f, now) => TryTheirs(n, f, now);
    case Request(id, ipv4, port, now) => RequestTheirs(n, id, Pending(ipv4, port, now, n.next));
    case _ =>
      hide Theirs, FlightTheirs;
      StaysTheirs(n, Do(mac, n, a));
  }

  // ---------------------------------------------------------------- each requester is taken once

  /** The bookkeeping of the waiting requesters. */
  datatype Queue = Queue(foreign: Foreign, next: nat, joined: map<nat, Batch>, taken: seq<nat>)

  function QueueOf(n: N): Queue { Queue(n.foreign, n.next, n.joined, n.taken) }

  ghost predicate Apart(list: seq<Pending>) {
    forall i, j :: 0 <= i < j < |list| ==> !Same(list[i], list[j]) && list[i].ticket != list[j].ticket
  }

  /** A request that waits in this batch, and has not been taken. */
  ghost predicate WaitsIn(q: Queue, b: Batch, p: Pending) {
    p.ticket < q.next && p.ticket in q.joined && q.joined[p.ticket] == b && p.ticket !in q.taken
  }

  ghost predicate ListInv(q: Queue, b: Batch, list: seq<Pending>) {
    Apart(list) && |list| <= MAX_PER_TARGET && forall p :: p in list ==> WaitsIn(q, b, p)
  }

  ghost predicate Once(taken: seq<nat>) { forall i, j :: 0 <= i < j < |taken| ==> taken[i] != taken[j] }

  ghost predicate QueueInv(q: Queue) {
    && (forall t :: t in q.foreign.waits ==>
          q.foreign.waits[t].gen <= q.foreign.gen && ListInv(q, Batch(t, q.foreign.waits[t].gen), q.foreign.waits[t].list))
    && Once(q.taken) && (forall x :: x in q.taken ==> x < q.next)
  }

  /** `p` is another request, from elsewhere, than every one in the list. */
  ghost predicate Other(list: seq<Pending>, p: Pending) {
    forall r :: r in list ==> !Same(r, p) && r.ticket != p.ticket
  }

  lemma ApartEnds(list: seq<Pending>)
    requires Apart(list) && list != []
    ensures var n := |list| - 1; Apart(list[..n]) && Other(list[..n], list[n]) && Apart(list[1..]) && Other(list[1..], list[0])
  {
    var n := |list| - 1;
    forall r | r in list[..n] ensures !Same(r, list[n]) && r.ticket != list[n].ticket {
      var i :| 0 <= i < n && list[i] == r;
    }
    forall r | r in list[1..] ensures !Same(r, list[0]) && r.ticket != list[0].ticket {
      var i :| 1 <= i < |list| && list[i] == r;
    }
  }

  lemma ApartJoin(list: seq<Pending>, p: Pending)
    requires Apart(list) && Other(list, p)
    ensures Apart(list + [p]) && Apart([p] + list)
  {
  }

  lemma {:induction false} LiveKeeps(list: seq<Pending>, now: int)
    requires Apart(list)
    ensures Apart(Live(list, now)) && |Live(list, now)| <= |list| && forall p :: p in Live(list, now) ==> p in list
  {
    if list != [] {
      var n := |list| - 1;
      ApartEnds(list);
      LiveKeeps(list[..n], now);
      ApartJoin(Live(list[..n], now), list[n]);
    }
  }

  lemma LiveInv(q: Queue, b: Batch, list: seq<Pending>, now: int)
    requires ListInv(q, b, list)
    ensures ListInv(q, b, Live(list, now))
  {
    hide Live;
    LiveKeeps(list, now);
  }

  lemma {:induction false} DroppedKeeps(list: seq<Pending>, p: Pending)
    requires Apart(list)
    ensures var d := Dropped(list, p);
            Apart(d) && |d| <= |list| && forall r :: r in d ==> r in list && !Same(r, p)
  {
    if list != [] {
      ApartEnds(list);
      if !Same(list[0], p) {
        DroppedKeeps(list[1..], p);
        ApartJoin(Dropped(list[1..], p), list[0]);
      }
    }
  }

  lemma QueuedKeeps(list: seq<Pending>, p: Pending)
    requires Apart(list) && forall r :: r in list ==> r.ticket != p.ticket
    ensures var r := Queued(list, p);
            Apart(r) && |r| <= MAX_PER_TARGET && p in r && forall x :: x in r ==> x == p || x in list
  {
    hide Dropped;
    DroppedKeeps(list, p);
    var d := Dropped(list, p);
    var kept := if |d| >= MAX_PER_TARGET then d[|d| - MAX_PER_TARGET + 1..] else d;
    ApartSuffix(d, |d| - |kept|);
    ApartJoin(kept, p);
  }

  lemma ApartSuffix(list: seq<Pending>, k: nat)
    requires Apart(list) && k <= |list|
    ensures Apart(list[k..])
  {
  }

  lemma SweptInv(q: Queue, now: int)
    requires QueueInv(q)
    ensures QueueInv(q.(foreign := Swept(q.foreign, now)))
  {
    hide Live, ListInv;
    var f := Swept(q.foreign, now);
    forall t | t in f.waits ensures ListInv(q.(foreign := f), Batch(t, f.waits[t].gen), f.waits[t].list) {
      LiveInv(q, Batch(t, f.waits[t].gen), q.foreign.waits[t].list, now);
      SameQueue(q, q.(foreign := f), Batch(t, f.waits[t].gen), f.waits[t].list);
    }
  }

  lemma SameQueue(q: Queue, r: Queue, b: Batch, list: seq<Pending>)
    requires ListInv(q, b, list) && q.next <= r.next && r.taken == q.taken
    requires forall x :: x in q.joined && x < q.next ==> x in r.joined && r.joined[x] == q.joined[x]
    ensures ListInv(r, b, list)
  {
  }

  /** A request joins the batch its fallback timer is armed for. */
  lemma AddInv(q: Queue, t: nat, p: Pending)
    requires QueueInv(q) && p.ticket == q.next
    ensures var f := NatCallback.Add(q.foreign, t, p);
            QueueInv(Queue(f, q.next + 1, q.joined[p.ticket := Batch(t, f.waits[t].gen)], q.taken))
  {
    SweptInv(q, p.at);
    hide Live, Swept, Queued;
    var g := Swept(q.foreign, p.at);
    var f := NatCallback.Add(q.foreign, t, p);
    var b := Batch(t, f.waits[t].gen);
    var r := Queue(f, q.next + 1, q.joined[p.ticket := b], q.taken);
    var before := if Waiting(g, t, p.at) then Live(g.waits[t].list, p.at) else [];
    if Waiting(g, t, p.at) {
      LiveInv(q.(foreign := g), b, g.waits[t].list, p.at);
    } else {
      QueuedFirst(p);
    }
    JoinInv(q.(foreign := g), r, b, before, p);
    hide ListInv;
    assert f.waits[t].list == Queued(before, p);
    forall s | s in f.waits && s != t ensures ListInv(r, Batch(s, f.waits[s].gen), f.waits[s].list) {
      SameQueue(q.(foreign := g), r, Batch(s, f.waits[s].gen), f.waits[s].list);
    }
  }

  lemma JoinInv(q: Queue, r: Queue, b: Batch, list: seq<Pending>, p: Pending)
    requires ListInv(q, b, list) && p.ticket == q.next && (forall x :: x in q.taken ==> x < q.next)
    requires r.next == q.next + 1 && r.joined == q.joined[p.ticket := b] && r.taken == q.taken
    ensures ListInv(r, b, Queued(list, p))
  {
    hide Queued;
    QueuedKeeps(list, p);
  }

  /** Taking a batch takes requests that waited in it, none of them taken before. */
  lemma TakeInv(q: Queue, t: nat, now: int)
    requires QueueInv(q)
    ensures QueueInv(q.(foreign := Removed(q.foreign, t), taken := q.taken + Tickets(Taken(q.foreign, t, now))))
    ensures t in q.foreign.waits ==> ListInv(q, Batch(t, q.foreign.waits[t].gen), Taken(q.foreign, t, now))
  {
    hide Live;
    if t in q.foreign.waits {
      LiveInv(q, Batch(t, q.foreign.waits[t].gen), q.foreign.waits[t].list, now);
    }
    var list := Taken(q.foreign, t, now);
    var r := q.(foreign := Removed(q.foreign, t), taken := q.taken + Tickets(list));
    assert ListInv(q, Batch(t, if t in q.foreign.waits then q.foreign.waits[t].gen else 0), list);
    OnceConcat(q, Batch(t, if t in q.foreign.waits then q.foreign.waits[t].gen else 0), list);
    forall s | s in r.foreign.waits ensures ListInv(r, Batch(s, r.foreign.waits[s].gen), r.foreign.waits[s].list) {
      assert ListInv(q, Batch(s, q.foreign.waits[s].gen), q.foreign.waits[s].list);
    }
  }

  lemma OnceConcat(q: Queue, b: Batch, list: seq<Pending>)
    requires ListInv(q, b, list) && Once(q.taken)
    ensures Once(q.taken + Tickets(list))
    ensures forall x :: x in Tickets(list) ==> x < q.next && x in q.joined && q.joined[x] == b && x !in q.taken
  {
    var ts := Tickets(list);
    forall i | 0 <= i < |ts| ensures ts[i] !in q.taken {
      assert list[i] in list;
    }
    forall x | x in ts ensures x < q.next && x in q.joined && q.joined[x] == b {
      var i :| 0 <= i < |ts| && ts[i] == x;
      assert list[i] in list;
    }
  }

  lemma QueueStill(mac: Mac, n: N, a: Action)
    requires Enabled(n, a) && !a.Request? && !a.Tell? && !a.Fire?
    ensures QueueOf(Do(mac, n, a)) == QueueOf(n) && Do(mac, n, a).timers == n.timers
  {
    hide Kept, RememberStep, ViewStep, TryOwnStep, TryKeepaliveStep;
    match a
    case Keep(_, _, _, _, _, _) => KeepStill(mac, n, a);
    case Remember(_) => FlightStill(n, a);
    case View(_) => FlightStill(n, a);
    case TryOwn(_, _) => FallbackStill(n, a);
    case TryKeepalive(_, _) => FallbackStill(n, a);
    case _ =>
  }

  lemma KeepStill(mac: Mac, n: N, a: Action)
    requires Enabled(n, a) && a.Keep?
    ensures QueueOf(Kept(mac, n, a)) == QueueOf(n) && Kept(mac, n, a).timers == n.timers
  {
    hide Heard, Believed, Notices;
  }

  lemma FlightStill(n: N, a: Action)
    requires Enabled(n, a) && (a.Remember? || a.View?)
    ensures var m := if a.Remember? then RememberStep(n, a.f) else ViewStep(n, a.f);
            QueueOf(m) == QueueOf(n) && m.timers == n.timers
  {
    hide Heard, Believed, Notices;
  }

  lemma FallbackStill(n: N, a: Action)
    requires Enabled(n, a) && (a.TryOwn? || a.TryKeepalive?)
    ensures var m := if a.TryOwn? then TryOwnStep(n, a.f, a.now) else TryKeepaliveStep(n, a.f, a.now);
            QueueOf(m) == QueueOf(n) && m.timers == n.timers
  {
    hide Heard, Believed, Notices;
  }

  lemma QueueTold(n: N, a: Action)
    requires Enabled(n, a) && (a.Tell? || a.Fire?)
    ensures var t := if a.Tell? then n.flights[a.f].id else a.batch.target;
            var m := if a.Tell? then TellStep(n, a.f, a.now) else FireStep(n, a.f, a.batch, a.now);
            QueueOf(m) == QueueOf(n)
            || QueueOf(m) == QueueOf(n).(foreign := Removed(n.foreign, t), taken := n.taken + Tickets(Taken(n.foreign, t, a.now)))
  {
    hide Taken, Removed, Tickets, Notices;
  }

  lemma DoQueue(mac: Mac, n: N, a: Action)
    requires QueueInv(QueueOf(n)) && Enabled(n, a)
    ensures QueueInv(QueueOf(Do(mac, n, a)))
  {
    hide QueueInv, Removed, Taken, Tickets, Kept, TellStep, FireStep, NatCallback.Add;
    match a
    case Request(id, ipv4, port, now) => AddInv(QueueOf(n), id, Pending(ipv4, port, now, n.next));
    case Tell(f, now) =>
      QueueTold(n, a);
      TakeInv(QueueOf(n), n.flights[f].id, now);
    case Fire(f, batch, now) =>
      QueueTold(n, a);
      TakeInv(QueueOf(n), batch.target, now);
    case _ => QueueStill(mac, n, a);
  }

  // ---------------------------------------------------------------- over whole runs

  const START: N := N(map[], map[], map[], Foreign(map[], 0, -WINDOW), map[], map[], {}, map[], 0, map[], {}, [], [])

  ghost predicate Run(mac: Mac, n: N, acts: seq<Action>, m: N)
    decreases acts
  {
    if acts == [] then n == m else Enabled(n, acts[0]) && Run(mac, Do(mac, n, acts[0]), acts[1..], m)
  }

  lemma {:induction false} RunKeeps(mac: Mac, n: N, acts: seq<Action>, m: N)
    requires EndpointInv(n) && QueueInv(QueueOf(n)) && Run(mac, n, acts, m)
    ensures EndpointInv(m) && QueueInv(QueueOf(m))
    decreases acts
  {
    hide EndpointInv, QueueInv, Do;
    if acts != [] {
      DoTheirs(mac, n, acts[0]);
      DoQueue(mac, n, acts[0]);
      RunKeeps(mac, Do(mac, n, acts[0]), acts[1..], m);
    }
  }

  /** Every notice names the session's own IPv4, or one that same session proved; no requester is taken twice. */
  lemma NoticesHonest(mac: Mac, acts: seq<Action>, n: N)
    requires Run(mac, START, acts, n)
    ensures forall i :: 0 <= i < |n.notices| ==>
              var x := n.notices[i];
              x.session in n.ip && (x.ipv4 == n.ip[x.session] || (x.session, x.ipv4) in n.proofs)
    ensures Once(n.taken)
    ensures forall t :: t in n.foreign.waits ==> |n.foreign.waits[t].list| <= MAX_PER_TARGET && Apart(n.foreign.waits[t].list)
  {
    RunKeeps(mac, START, acts, n);
    forall i | 0 <= i < |n.notices| ensures Theirs(n, n.notices[i].session, n.notices[i].ipv4) {
    }
  }

  lemma FiredTakes(n: N, f: nat, batch: Batch, now: int)
    requires QueueInv(QueueOf(n))
    ensures var m := FireStep(n, f, batch, now);
            && n.taken <= m.taken
            && forall i :: |n.taken| <= i < |m.taken| ==> m.taken[i] in n.joined && n.joined[m.taken[i]] == batch
  {
    hide Live;
    if HasGen(n.foreign, batch.target, batch.gen) {
      TakeInv(QueueOf(n), batch.target, now);
      var list := Taken(n.foreign, batch.target, now);
      OnceConcat(QueueOf(n), batch, list);
      hide QueueInv, ListInv, Taken, Removed;
      var m := FireStep(n, f, batch, now);
      assert m.taken == n.taken + Tickets(list);
      forall i | |n.taken| <= i < |m.taken| ensures m.taken[i] in Tickets(list) {
        assert m.taken[i] == Tickets(list)[i - |n.taken|];
      }
    }
  }

  /** A fallback timer takes only requests that joined the batch it was armed for: a stale one takes none of a later batch. */
  lemma FallbackTakesItsBatch(mac: Mac, acts: seq<Action>, n: N, f: nat, batch: Batch, now: int)
    requires Run(mac, START, acts, n) && Enabled(n, Fire(f, batch, now))
    ensures var m := Do(mac, n, Fire(f, batch, now));
            && n.taken <= m.taken
            && forall i :: |n.taken| <= i < |m.taken| ==> m.taken[i] in n.joined && n.joined[m.taken[i]] == batch
  {
    RunKeeps(mac, START, acts, n);
    FiredTakes(n, f, batch, now);
  }
}
