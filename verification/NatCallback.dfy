/**
 Foreign LowID callbacks (ed2k/natcallback.go): requesters wait in batches for a target's
 keepalive, a fallback timer per batch, and the anti-replay state that decides which
 keepalives are believed.
 */
module NatCallback {
  import opened Bytes

  const WINDOW: int := 19_000
  const MAX_PER_TARGET: nat := 4
  const KEEPALIVE_TTL: int := 600_000
  const TARGET_WINDOW: int := 600_000
  const MAX_TARGETS: nat := 60

  // ---------------------------------------------------------------- the waiting requesters

  /** A requester: where its request came from, and when. `ticket` is the request itself. */
  datatype Pending = Pending(ipv4: nat, port: nat, at: int, ticket: nat)

  datatype Wait = Wait(gen: nat, list: seq<Pending>)

  datatype Foreign = Foreign(waits: map<nat, Wait>, gen: nat, swept: int)

  /** The last UDP endpoint heard for a LowID, and the session it is believed of. */
  datatype Recent = Recent(ipv4: nat, port: nat, at: int, owner: nat, proven: bool)

  predicate Same(a: Pending, b: Pending) { a.ipv4 == b.ipv4 && a.port == b.port }

  ghost predicate Distinct(list: seq<Pending>) {
    forall i, j :: 0 <= i < j < |list| ==> !Same(list[i], list[j])
  }

  predicate Fresh(p: Pending, now: int) { now - p.at <= WINDOW }

  /** The requests of the last window, in arrival order. */
  function Live(list: seq<Pending>, now: int): seq<Pending> {
    if list == [] then []
    else
      var n := |list| - 1;
      Live(list[..n], now) + if Fresh(list[n], now) then [list[n]] else []
  }

  function Dropped(list: seq<Pending>, p: Pending): seq<Pending> {
    if list == [] then []
    else if Same(list[0], p) then list[1..]
    else [list[0]] + Dropped(list[1..], p)
  }

  /** A repeated request moves to the end; past four the oldest goes. */
  function Queued(list: seq<Pending>, p: Pending): seq<Pending> {
    var l := Dropped(list, p);
    (if |l| >= MAX_PER_TARGET then l[|l| - MAX_PER_TARGET + 1..] else l) + [p]
  }

  function Swept(f: Foreign, now: int): Foreign {
    if now - f.swept < WINDOW then f
    else
      Foreign(map t | t in f.waits && Live(f.waits[t].list, now) != [] :: Wait(f.waits[t].gen, Live(f.waits[t].list, now)),
              f.gen, now)
  }

  /** Whether a live batch is waiting for the target. */
  predicate Waiting(f: Foreign, t: nat, now: int) { t in f.waits && Live(f.waits[t].list, now) != [] }

  function Add(f: Foreign, t: nat, p: Pending): Foreign {
    var g := Swept(f, p.at);
    if Waiting(g, t, p.at) then
      g.(waits := g.waits[t := Wait(g.waits[t].gen, Queued(Live(g.waits[t].list, p.at), p))])
    else g.(waits := g.waits[t := Wait(g.gen + 1, [p])], gen := g.gen + 1)
  }

  function Taken(f: Foreign, t: nat, now: int): seq<Pending> {
    if t in f.waits then Live(f.waits[t].list, now) else []
  }

  function Removed(f: Foreign, t: nat): Foreign { f.(waits := f.waits - {t}) }

  /** The fallback timer of batch `gen` takes only that batch. */
  predicate HasGen(f: Foreign, t: nat, gen: nat) { t in f.waits && f.waits[t].gen == gen }

  // ---------------------------------------------------------------- which keepalives are believed

  /** A session's keepalive state: its token, the last proof counter accepted, and whether one came obfuscated. */
  datatype Session = Session(token: Option<seq<Byte>>, counter: nat, obfuscated: bool)

  const NEW_SESSION: Session := Session(None, 0, false)

  /** A keepalive: what followed the user hash, how it came, and whether from the session's own address. */
  datatype Keepalive = Keepalive(hash: seq<Byte>, rest: seq<Byte>, obfuscated: bool, sameIP: bool)

  type Mac = (seq<Byte>, seq<Byte>, nat) -> seq<Byte>

  const PROOF_SIZE: nat := 20

  predicate ProofForm(k: Keepalive) { |k.rest| == PROOF_SIZE }

  function CounterOf(k: Keepalive): nat
    requires ProofForm(k)
  {
    Number(k.rest[..4])
  }

  predicate GoodProof(mac: Mac, st: Option<Session>, k: Keepalive)
    requires ProofForm(k)
  {
    && st.Some? && st.value.token.Some?
    && mac(st.value.token.value, k.hash, CounterOf(k)) == k.rest[4..PROOF_SIZE]
    && CounterOf(k) > st.value.counter
  }

  predicate Guarded(st: Option<Session>) { st.Some? && st.value.obfuscated }

  /** A good proof is believed from anywhere; anything else only from the session's address, and plain only at first. */
  predicate Believed(mac: Mac, st: Option<Session>, k: Keepalive) {
    if ProofForm(k) then GoodProof(mac, st, k) else k.sameIP && (k.obfuscated || !Guarded(st))
  }

  /** The state after a keepalive; a plain one starts none. */
  function Heard(mac: Mac, st: Option<Session>, k: Keepalive): Option<Session> {
    if !Believed(mac, st, k) || (st.None? && !k.obfuscated) then st
    else
      var s := if st.Some? then st.value else NEW_SESSION;
      Some(s.(counter := if ProofForm(k) then CounterOf(k) else s.counter, obfuscated := s.obfuscated || k.obfuscated))
  }

  datatype SessionEvent = Hear(k: Keepalive) | Issue(token: seq<Byte>) | Release

  function After(mac: Mac, st: Option<Session>, e: SessionEvent): Option<Session> {
    match e
    case Hear(k) => Heard(mac, st, k)
    case Issue(token) => Some(Session(Some(token), 0, false))
    case Release => None
  }

  function AfterAll(mac: Mac, st: Option<Session>, es: seq<SessionEvent>): Option<Session> {
    if es == [] then st else After(mac, AfterAll(mac, st, es[..|es| - 1]), es[|es| - 1])
  }

  /** The counters of the proofs believed, in order. */
  function Counters(mac: Mac, st: Option<Session>, es: seq<SessionEvent>): seq<nat> {
    if es == [] then []
    else
      var pre, e := es[..|es| - 1], es[|es| - 1];
      Counters(mac, st, pre) +
      if e.Hear? && ProofForm(e.k) && Believed(mac, AfterAll(mac, st, pre), e.k) then [CounterOf(e.k)] else []
  }

  ghost predicate NoIssue(es: seq<SessionEvent>) { forall i :: 0 <= i < |es| ==> !es[i].Issue? }

  ghost predicate AtMost(cs: seq<nat>, st: Option<Session>) {
    st.Some? && st.value.token.Some? ==> forall i :: 0 <= i < |cs| ==> cs[i] <= st.value.counter
  }

  /** Between two token issues the counters accepted strictly increase. */
  lemma {:induction false} CountersIncrease(mac: Mac, st: Option<Session>, es: seq<SessionEvent>)
    requires NoIssue(es)
    ensures var cs := Counters(mac, st, es);
            && (forall i, j :: 0 <= i < j < |cs| ==> cs[i] < cs[j])
            && AtMost(cs, AfterAll(mac, st, es))
  {
    hide Number, CounterOf;
    if es != [] {
      CountersIncrease(mac, st, es[..|es| - 1]);
    }
  }

  /** So no proof is believed twice under one token. */
  lemma {:induction false} NoReplay(mac: Mac, st: Option<Session>, k: Keepalive, es: seq<SessionEvent>, again: Keepalive)
    requires ProofForm(k) && Believed(mac, st, k) && NoIssue(es) && again.rest == k.rest
    ensures !Believed(mac, AfterAll(mac, Heard(mac, st, k), es), again)
    ensures var s := AfterAll(mac, Heard(mac, st, k), es); s.Some? && s.value.token.Some? ==> s.value.counter >= CounterOf(k)
  {
    hide Number;
    if es != [] {
      NoReplay(mac, st, k, es[..|es| - 1], again);
    }
  }

  /** Once an obfuscated keepalive was believed, no plain one without a proof is, until the session's state starts again. */
  lemma {:induction false} PlainRefused(mac: Mac, st: Option<Session>, k: Keepalive, es: seq<SessionEvent>, plain: Keepalive)
    requires k.obfuscated && Believed(mac, st, k) && (forall i :: 0 <= i < |es| ==> es[i].Hear?)
    requires !plain.obfuscated && !ProofForm(plain)
    ensures Guarded(AfterAll(mac, Heard(mac, st, k), es))
    ensures !Believed(mac, AfterAll(mac, Heard(mac, st, k), es), plain)
  {
    hide CounterOf;
    if es != [] {
      PlainRefused(mac, st, k, es[..|es| - 1], plain);
    }
  }

  /** What a client sends as a proof: its counter, and the code of it under its token. */
  function Proof(mac: Mac, token: seq<Byte>, hash: seq<Byte>, counter: nat): seq<Byte> {
    LittleEndian(counter, 4) + mac(token, hash, counter)
  }

  /** A client that counts up is believed, from wherever its proof comes and however it is sent. */
  lemma FreshProofBelieved(mac: Mac, st: Session, k: Keepalive, counter: nat)
    requires st.token.Some? && st.counter < counter < U32 && |mac(st.token.value, k.hash, counter)| == 16
    requires k.rest == Proof(mac, st.token.value, k.hash, counter)
    ensures Believed(mac, Some(st), k)
    ensures Heard(mac, Some(st), k) == Some(Session(st.token, counter, st.obfuscated || k.obfuscated))
  {
    Powers();
    NumberOfLittleEndian(counter, 4);
    hide LittleEndian, Number, Pow256;
    assert k.rest[..4] == LittleEndian(counter, 4) && k.rest[4..20] == mac(st.token.value, k.hash, counter);
  }

  /** From the session's own address a plain keepalive without a proof is believed as long as none came obfuscated. */
  lemma {:induction false} PlainBelieved(mac: Mac, es: seq<SessionEvent>, plain: Keepalive)
    requires (forall i :: 0 <= i < |es| && es[i].Hear? ==> !es[i].k.obfuscated) && plain.sameIP && |plain.rest| != 20
    ensures !Guarded(AfterAll(mac, None, es)) && Believed(mac, AfterAll(mac, None, es), plain)
  {
    hide CounterOf, GoodProof;
    if es != [] { PlainBelieved(mac, es[..|es| - 1], plain); }
  }

  /** And an obfuscated one always. */
  lemma ObfuscatedBelieved(mac: Mac, st: Option<Session>, k: Keepalive)
    requires k.obfuscated && k.sameIP && |k.rest| != 20
    ensures Believed(mac, st, k) && Guarded(Heard(mac, st, k))
  {
  }

  // ---------------------------------------------------------------- the methods

  /** liveForeign, in place. */
  method LiveForeign(a: array<Pending>, n: nat, now: int) returns (m: nat)
    requires n <= a.Length
    modifies a
    ensures m <= n && a[..m] == Live(old(a[..n]), now)
  {
    m := 0;
    ghost var before := a[..];
    for i := 0 to n
      invariant m <= i && (forall j :: i <= j < a.Length ==> a[j] == before[j]) && a[..m] == Live(before[..i], now)
    {
      assert a[i] == before[i] && before[..i + 1][..i] == before[..i];
      if now - a[i].at <= WINDOW {
        ghost var kept := a[..m];
        a[m] := a[i];
        assert a[..m + 1] == kept + [before[i]];
        m := m + 1;
      }
    }
    assert before[..n] == old(a[..n]);
  }

  method Filter(list: seq<Pending>, now: int) returns (live: seq<Pending>)
    ensures live == Live(list, now)
  {
    var a := new Pending[|list|](i requires 0 <= i < |list| => list[i]);
    assert a[..|list|] == list;
    var m := LiveForeign(a, |list|, now);
    live := a[..m];
  }

  lemma DroppedAt(list: seq<Pending>, p: Pending, i: nat)
    requires i < |list| && Same(list[i], p) && forall j :: 0 <= j < i ==> !Same(list[j], p)
    ensures Dropped(list, p) == list[..i] + list[i + 1..]
  {
    if i > 0 {
      DroppedAt(list[1..], p, i - 1);
    }
  }

  lemma {:induction false} DroppedNone(list: seq<Pending>, p: Pending)
    requires forall j :: 0 <= j < |list| ==> !Same(list[j], p)
    ensures Dropped(list, p) == list
  {
    if list != [] { DroppedNone(list[1..], p); }
  }

  lemma QueuedFirst(p: Pending)
    ensures Queued([], p) == [p]
  {
  }

  /** The last three requests of others always stay. */
  lemma {:induction false} DroppedHolds(list: seq<Pending>, p: Pending, i: nat) returns (k: nat)
    requires i < |list| && !Same(list[i], p)
    ensures k < |Dropped(list, p)| && Dropped(list, p)[k] == list[i] && |Dropped(list, p)| - k <= |list| - i
    decreases list
  {
    if Same(list[0], p) {
      k := i - 1;
    } else if i == 0 {
      k := 0;
      DroppedFewer(list, p);
    } else {
      k := DroppedHolds(list[1..], p, i - 1);
      k := k + 1;
    }
  }

  lemma {:induction false} DroppedFewer(list: seq<Pending>, p: Pending)
    ensures |Dropped(list, p)| <= |list|
  {
    if list != [] { DroppedFewer(list[1..], p); }
  }

  method Queue(list: seq<Pending>, p: Pending) returns (queue: seq<Pending>)
    ensures queue == Queued(list, p)
    ensures 0 < |queue| <= 4 && queue[|queue| - 1] == p
    ensures forall i :: 0 <= i < |list| && |list| - i <= 3 && !Same(list[i], p) ==> list[i] in queue
  {
    hide Dropped;
    forall i | 0 <= i < |list| && |list| - i <= 3 && !Same(list[i], p) ensures list[i] in Queued(list, p) {
      var k := DroppedHolds(list, p, i);
      var d := Dropped(list, p);
      var from := if |d| >= MAX_PER_TARGET then |d| - MAX_PER_TARGET + 1 else 0;
      assert Queued(list, p)[k - from] == list[i];
    }
    var i := 0;
    while i < |list| && !(list[i].ipv4 == p.ipv4 && list[i].port == p.port)
      invariant 0 <= i <= |list| && forall j :: 0 <= j < i ==> !Same(list[j], p)
    {
      i := i + 1;
    }
    var kept := list;
    if i < |list| {
      DroppedAt(list, p, i);
      kept := list[..i] + list[i + 1..];
    } else {
      DroppedNone(list, p);
    }
    if |kept| >= MAX_PER_TARGET {
      kept := kept[|kept| - MAX_PER_TARGET + 1..];
    }
    queue := kept + [p];
  }

  /** The targets an address named in the last window, and when. */
  function LiveNames(names: map<nat, int>, now: int): map<nat, int> {
    map t | t in names && now - names[t] <= TARGET_WINDOW :: names[t]
  }

  function SweptNames(named: map<nat, map<nat, int>>, now: int): map<nat, map<nat, int>> {
    map a | a in named && LiveNames(named[a], now) != map[] :: LiveNames(named[a], now)
  }

  function LiveKeepalives(ks: map<nat, Recent>, now: int): map<nat, Recent> {
    map id | id in ks && now - ks[id].at <= KEEPALIVE_TTL :: ks[id]
  }

  lemma FewerNames(names: map<nat, int>, now: int)
    ensures |LiveNames(names, now)| <= |names|
  {
    var live := LiveNames(names, now);
    assert live.Keys <= names.Keys && |live| == |live.Keys| && |names| == |names.Keys|;
    Smaller(live.Keys, names.Keys);
  }

  lemma Smaller<T>(a: set<T>, b: set<T>)
    requires a <= b
    ensures |a| <= |b|
  {
    assert a + (b - a) == b;
  }

  /** The targets an address named in the window before `now`, swept or not. */
  function NamesAt(named: map<nat, map<nat, int>>, a: nat, now: int): map<nat, int> {
    if a in named then LiveNames(named[a], now) else map[]
  }

  /** No address is remembered with more distinct targets than it may name. */
  ghost predicate Capped(named: map<nat, map<nat, int>>) {
    forall a :: a in named ==> |named[a]| <= MAX_TARGETS
  }

  lemma LiveTwice(names: map<nat, int>, now: int)
    ensures LiveNames(LiveNames(names, now), now) == LiveNames(names, now)
  {
  }

  /** A sweep takes nothing that counts. */
  lemma SweepUnseen(named: map<nat, map<nat, int>>, now: int)
    ensures forall a :: NamesAt(SweptNames(named, now), a, now) == NamesAt(named, a, now)
    ensures Capped(named) ==> Capped(SweptNames(named, now))
  {
    hide LiveNames;
    forall a | a in named ensures LiveNames(LiveNames(named[a], now), now) == LiveNames(named[a], now) {
      LiveTwice(named[a], now);
    }
    NoNames(now);
    forall a | a in SweptNames(named, now) && Capped(named) ensures |SweptNames(named, now)[a]| <= MAX_TARGETS {
      FewerNames(named[a], now);
    }
  }

  lemma NoNames(now: int)
    ensures LiveNames(map[], now) == map[]
  {
  }

  /** What naming a target, or being refused it, leaves of an address's names. */
  function NamesNext(names: map<nat, int>, target: nat, now: int): map<nat, int> {
    if target in names || |names| < MAX_TARGETS then names[target := now] else names
  }

  lemma NamesPut(named: map<nat, map<nat, int>>, a: nat, target: nat, now: int)
    requires Capped(named)
    ensures var next := NamesNext(NamesAt(named, a, now), target, now);
            var after := named[a := next];
            && Capped(after) && NamesAt(after, a, now) == next
            && forall b :: b != a ==> NamesAt(after, b, now) == NamesAt(named, b, now)
  {
    var names := NamesAt(named, a, now);
    if a in named { FewerNames(named[a], now); }
    assert LiveNames(NamesNext(names, target, now), now) == NamesNext(names, target, now);
  }

  /** An address names a target. */
  datatype Naming = Naming(address: nat, target: nat, at: int)

  /** Which namings are allowed, from the history alone: a target of the last ten minutes again, or one of at most sixty. */
  ghost predicate Allowed(cs: seq<Naming>, i: nat)
    requires i < |cs|
    decreases i, 1
  {
    var recent := RecentTargets(cs, i, cs[i].address, cs[i].at);
    cs[i].target in recent || |recent| < 60
  }

  ghost function RecentTargets(cs: seq<Naming>, n: nat, a: nat, now: int): set<nat>
    requires n <= |cs|
    decreases n, 0
  {
    if n == 0 then {}
    else
      var c := cs[n - 1];
      RecentTargets(cs, n - 1, a, now) +
      if c.address == a && now - c.at <= 600_000 && Allowed(cs, n - 1) then {c.target} else {}
  }

  /** The table after them. */
  ghost function NamedAfter(cs: seq<Naming>, n: nat): map<nat, map<nat, int>>
    requires n <= |cs|
  {
    if n == 0 then map[]
    else
      var m, c := NamedAfter(cs, n - 1), cs[n - 1];
      m[c.address := NamesNext(NamesAt(m, c.address, c.at), c.target, c.at)]
  }

  lemma LiveLater(names: map<nat, int>, since: int, now: int)
    requires since <= now
    ensures LiveNames(LiveNames(names, since), now) == LiveNames(names, now)
  {
  }

  /** Nothing was named after `now`. */
  ghost predicate Past(m: map<nat, map<nat, int>>, now: int) {
    forall a, t :: a in m && t in m[a] ==> m[a][t] <= now
  }

  ghost predicate InOrder(cs: seq<Naming>, n: nat, now: int)
    requires n <= |cs|
  {
    n > 0 ==> cs[n - 1].at <= now && InOrder(cs, n - 1, cs[n - 1].at)
  }

  lemma {:induction false} NamedPast(cs: seq<Naming>, n: nat, now: int)
    requires n <= |cs| && InOrder(cs, n, now)
    ensures Past(NamedAfter(cs, n), now)
    decreases n
  {
    if n > 0 { NamedPast(cs, n - 1, cs[n - 1].at); }
  }

  lemma {:induction false} InOrderLater(cs: seq<Naming>, n: nat, now: int, later: int)
    requires n <= |cs| && InOrder(cs, n, now) && now <= later
    ensures InOrder(cs, n, later)
  {
  }

  lemma NamedNext(m: map<nat, map<nat, int>>, c: Naming, a: nat, now: int)
    requires c.at <= now && Past(m, c.at)
    ensures var live := NamesAt(m, c.address, c.at);
            var m' := m[c.address := NamesNext(live, c.target, c.at)];
            NamesAt(m', a, now).Keys == NamesAt(m, a, now).Keys +
            if c.address == a && now - c.at <= 600_000 && (c.target in live || |live| < 60) then {c.target} else {}
  {
    if a == c.address {
      var live := NamesAt(m, a, c.at);
      if a in m { LiveLater(m[a], c.at, now); }
      assert LiveNames(live, now) == NamesAt(m, a, now);
      if c.target in live || |live| < 60 {
        NamedAgain(live, c.target, c.at, now);
      }
    }
  }

  lemma NamedAgain(live: map<nat, int>, target: nat, at: int, now: int)
    requires at <= now && (target in live ==> live[target] <= at)
    ensures LiveNames(live[target := at], now).Keys ==
            LiveNames(live, now).Keys + if now - at <= 600_000 then {target} else {}
  {
  }

  /** The names held for an address are those its history allows, so at most sixty in any ten minutes. */
  lemma {:induction false} NamesAreRecent(cs: seq<Naming>, n: nat, a: nat, now: int)
    requires n <= |cs| && InOrder(cs, n, now)
    ensures NamesAt(NamedAfter(cs, n), a, now).Keys == RecentTargets(cs, n, a, now)
    decreases n
  {
    if n == 0 { return; }
    hide LiveNames, NamesNext, NamesAt, Allowed, NamedAfter, RecentTargets, Past;
    var c, m := cs[n - 1], NamedAfter(cs, n - 1);
    InOrderLater(cs, n - 1, c.at, now);
    NamesAreRecent(cs, n - 1, a, now);
    NamesAreRecent(cs, n - 1, c.address, c.at);
    NamedPast(cs, n - 1, c.at);
    NamedNext(m, c, a, now);
    AllowedIs(cs, n - 1, NamesAt(m, c.address, c.at));
    OneNaming(cs, n, a, now);
  }

  lemma OneNaming(cs: seq<Naming>, n: nat, a: nat, now: int)
    requires 0 < n <= |cs|
    ensures var c, m := cs[n - 1], NamedAfter(cs, n - 1);
            && NamedAfter(cs, n) == m[c.address := NamesNext(NamesAt(m, c.address, c.at), c.target, c.at)]
            && RecentTargets(cs, n, a, now) == RecentTargets(cs, n - 1, a, now) +
               if c.address == a && now - c.at <= 600_000 && Allowed(cs, n - 1) then {c.target} else {}
  {
    hide LiveNames, NamesNext, NamesAt, Allowed;
  }

  lemma AllowedIs(cs: seq<Naming>, i: nat, live: map<nat, int>)
    requires i < |cs| && live.Keys == RecentTargets(cs, i, cs[i].address, cs[i].at)
    ensures Allowed(cs, i) <==> cs[i].target in live || |live| < 60
  {
    hide RecentTargets;
    assert |live| == |live.Keys|;
  }

  class CallbackState {
    var waits: map<nat, Wait>
    var gen: nat
    var swept: int
    var sessions: map<nat, Session>
    /** What each address named lately, and each LowID's last believed keepalive. */
    var named: map<nat, map<nat, int>>
    var keepalives: map<nat, Recent>

    ghost function View(): Foreign
      reads this
    {
      Foreign(waits, gen, swept)
    }

    constructor ()
      ensures View() == Foreign(map[], 0, -WINDOW) && sessions == map[] && named == map[] && keepalives == map[]
    {
      waits, gen, swept, sessions, named, keepalives := map[], 0, -WINDOW, map[], map[], map[];
    }

    /** At most once a window: stale requesters, names and keepalives go. */
    method Sweep(now: int)
      modifies this`waits, this`swept, this`named, this`keepalives
      ensures View() == Swept(old(View()), now)
      ensures named == if now - old(swept) < WINDOW then old(named) else SweptNames(old(named), now)
      ensures keepalives == if now - old(swept) < WINDOW then old(keepalives) else LiveKeepalives(old(keepalives), now)
    {
      hide LiveNames, SweptNames;
      if now - swept < WINDOW {
        return;
      }
      swept := now;
      SweepWaits(now);
      SweepNames(now);
      SweepKeepalives(now);
    }

    method SweepWaits(now: int)
      modifies this`waits
      ensures waits == map t | t in old(waits) && Live(old(waits)[t].list, now) != [] ::
                         Wait(old(waits)[t].gen, Live(old(waits)[t].list, now))
    {
      hide Live;
      var todo := waits.Keys;
      ghost var w0 := waits;
      while todo != {}
        invariant todo <= waits.Keys
        invariant forall t :: t in todo ==> t in w0 && waits[t] == w0[t]
        invariant waits == map t | t in w0 && (t in todo || Live(w0[t].list, now) != []) ::
                             if t in todo then w0[t] else Wait(w0[t].gen, Live(w0[t].list, now))
        decreases |todo|
      {
        var t :| t in todo;
        var live := Filter(waits[t].list, now);
        if |live| == 0 {
          waits := waits - {t};
        } else {
          waits := waits[t := Wait(waits[t].gen, live)];
        }
        todo := todo - {t};
      }
    }

    method SweepNames(now: int)
      modifies this`named
      ensures named == SweptNames(old(named), now)
    {
      hide LiveNames;
      var todo := named.Keys;
      ghost var n0 := named;
      while todo != {}
        invariant todo <= n0.Keys
        invariant forall a :: a in named <==> a in n0 && (a in todo || LiveNames(n0[a], now) != map[])
        invariant forall a :: a in named ==> named[a] == if a in todo then n0[a] else LiveNames(n0[a], now)
        decreases |todo|
      {
        var a :| a in todo;
        var live := ForgetNames(named[a], now);
        if live == map[] {
          named := named - {a};
        } else {
          named := named[a := live];
        }
        todo := todo - {a};
      }
    }

    method ForgetNames(names: map<nat, int>, now: int) returns (live: map<nat, int>)
      ensures live == LiveNames(names, now)
    {
      live := names;
      var todo := names.Keys;
      while todo != {}
        invariant todo <= names.Keys
        invariant live == map t | t in names && (t in todo || now - names[t] <= TARGET_WINDOW) :: names[t]
        decreases |todo|
      {
        var t :| t in todo;
        if now - live[t] > TARGET_WINDOW {
          live := live - {t};
        }
        todo := todo - {t};
      }
    }

    method SweepKeepalives(now: int)
      modifies this`keepalives
      ensures keepalives == LiveKeepalives(old(keepalives), now)
    {
      var todo := keepalives.Keys;
      ghost var k0 := keepalives;
      while todo != {}
        invariant todo <= k0.Keys
        invariant keepalives == map id | id in k0 && (id in todo || now - k0[id].at <= KEEPALIVE_TTL) :: k0[id]
        decreases |todo|
      {
        var id :| id in todo;
        if now - keepalives[id].at > KEEPALIVE_TTL {
          keepalives := keepalives - {id};
        }
        todo := todo - {id};
      }
    }

    /** An address may name a target again, or a new one while fewer than sixty are in the window. */
    method AllowForeignNamed(a: nat, target: nat, now: int) returns (ok: bool)
      requires Capped(named)
      modifies this`waits, this`swept, this`named, this`keepalives
      ensures Capped(named)
      ensures var names := NamesAt(old(named), a, now);
              && ok == (target in names || |names| < MAX_TARGETS)
              && NamesAt(named, a, now) == if ok then names[target := now] else names
      ensures forall b :: b != a ==> NamesAt(named, b, now) == NamesAt(old(named), b, now)
    {
      hide Swept, LiveKeepalives, SweptNames, LiveNames, Capped;
      Sweep(now);
      SweepUnseen(old(named), now);
      var names := map[];
      if a in named {
        names := ForgetNames(named[a], now);
      }
      assert names == NamesAt(named, a, now) == NamesAt(old(named), a, now);
      NamesPut(named, a, target, now);
      hide NamesAt;
      ok := target in names || |names| < MAX_TARGETS;
      if ok {
        names := names[target := now];
      }
      named := named[a := names];
    }

    method RememberKeepalive(id: nat, r: Recent)
      modifies this`waits, this`swept, this`named, this`keepalives
      ensures id in keepalives && keepalives[id] == r
      ensures LiveKeepalives(keepalives, r.at) == LiveKeepalives(old(keepalives)[id := r], r.at)
    {
      hide Swept, SweptNames;
      Sweep(r.at);
      keepalives := keepalives[id := r];
    }

    method KeepaliveFor(id: nat, now: int) returns (r: Option<Recent>)
      ensures r == if id in LiveKeepalives(keepalives, now) then Some(LiveKeepalives(keepalives, now)[id]) else None
    {
      if id !in keepalives || now - keepalives[id].at > KEEPALIVE_TTL {
        return None;
      }
      return Some(keepalives[id]);
    }

    method AddForeign(t: nat, p: Pending) returns (batch: nat, first: bool)
      modifies this`waits, this`gen, this`swept, this`named, this`keepalives
      ensures View() == Add(old(View()), t, p)
      ensures t in waits && batch == waits[t].gen
      ensures first == !Waiting(Swept(old(View()), p.at), t, p.at)
    {
      hide Live, Swept, Queued, SweptNames, LiveKeepalives;
      Sweep(p.at);
      var list := [];
      if t in waits {
        list := Filter(waits[t].list, p.at);
      }
      first := |list| == 0;
      if first {
        gen := gen + 1;
        waits := waits[t := Wait(gen, [])];
      }
      batch := waits[t].gen;
      QueuedFirst(p);
      var queue := Queue(list, p);
      waits := waits[t := Wait(batch, queue)];
    }

    method TakeForeign(t: nat, now: int) returns (list: seq<Pending>)
      modifies this`waits
      ensures View() == Removed(old(View()), t) && list == Taken(old(View()), t, now)
    {
      if t !in waits {
        return [];
      }
      list := Filter(waits[t].list, now);
      waits := waits - {t};
    }

    method TakeForeignGen(t: nat, g: nat, now: int) returns (list: seq<Pending>)
      modifies this`waits
      ensures if HasGen(old(View()), t, g) then View() == Removed(old(View()), t) && list == Taken(old(View()), t, now)
              else View() == old(View()) && list == []
    {
      if t !in waits || waits[t].gen != g {
        return [];
      }
      list := Filter(waits[t].list, now);
      waits := waits - {t};
    }

    method SetToken(c: nat, token: seq<Byte>)
      modifies this`sessions
      ensures sessions == old(sessions)[c := Session(Some(token), 0, false)]
    {
      sessions := sessions[c := Session(Some(token), 0, false)];
    }

    function StateOf(c: nat): Option<Session>
      reads this`sessions
    {
      if c in sessions then Some(sessions[c]) else None
    }

    method CheckKeepalive(mac: Mac, c: nat, k: Keepalive) returns (accepted: bool, proven: bool)
      modifies this`sessions
      ensures accepted == Believed(mac, old(StateOf(c)), k)
      ensures proven == (accepted && ProofForm(k) && !k.sameIP)
      ensures StateOf(c) == Heard(mac, old(StateOf(c)), k) && sessions - {c} == old(sessions) - {c}
    {
      hide Number;
      var proofOK, counter := false, 0;
      if 16 + |k.rest| == 36 {
        if c !in sessions || sessions[c].token.None? {
          return false, false;
        }
        counter := Number(k.rest[0..4]);
        assert k.rest[0..4] == k.rest[..4];
        if mac(sessions[c].token.value, k.hash, counter) != k.rest[4..20] {
          return false, false;
        }
        if counter <= sessions[c].counter {
          return false, false;
        }
        proofOK := true;
      }
      if !k.obfuscated && !proofOK && c in sessions && sessions[c].obfuscated {
        return false, false;
      }
      if !k.sameIP && !proofOK {
        return false, false;
      }
      if c !in sessions && !k.obfuscated {
        return true, false;
      }
      var st := if c in sessions then sessions[c] else NEW_SESSION;
      if proofOK {
        st := st.(counter := counter);
      }
      sessions := sessions[c := st.(obfuscated := st.obfuscated || k.obfuscated)];
      return true, proofOK && !k.sameIP;
    }
  }
}
