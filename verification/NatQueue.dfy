/**
 Who is waiting for a foreign callback, read off the history alone: newest first, each
 requester once, back to the last time the target's batch was taken, and no further than
 four. The batches of ed2k/natcallback.go, with their sweeps, refreshes and evictions, hold
 exactly these requesters, in order, in every run.
 */
module NatQueue {
  import opened Bytes
  import opened NatCallback
  import opened NatNotices

  datatype Turn = Ask(target: nat, p: Pending) | Take(target: nat)

  // ---------------------------------------------------------------- the history

  type Requester = (nat, nat)

  function Who(p: Pending): Requester { (p.ipv4, p.port) }

  /** The newest `room` requesters of a target not among `seen`, oldest first, back to the last take. */
  function Walk(os: seq<Turn>, t: nat, seen: set<Requester>, room: nat): seq<Pending> {
    if os == [] then []
    else
      var n := |os| - 1;
      var o := os[n];
      if o.target != t then Walk(os[..n], t, seen, room)
      else if o.Take? || room == 0 then []
      else if Who(o.p) in seen then Walk(os[..n], t, seen, room)
      else Walk(os[..n], t, seen + {Who(o.p)}, room - 1) + [o.p]
  }

  /** Those of them whose request is at most 19 seconds gone. */
  function Within(list: seq<Pending>, now: int): seq<Pending> {
    if list == [] then []
    else
      var n := |list| - 1;
      Within(list[..n], now) + if now - list[n].at <= 19_000 then [list[n]] else []
  }

  function WaitingFor(os: seq<Turn>, t: nat, now: int): seq<Pending> { Within(Walk(os, t, {}, 4), now) }

  /** The clock does not go back between two requests, and `now` is not before the last. */
  ghost predicate Timed(os: seq<Turn>, now: int) {
    && (forall i, j :: 0 <= i < j < |os| && os[i].Ask? && os[j].Ask? ==> os[i].p.at <= os[j].p.at)
    && (forall i :: 0 <= i < |os| && os[i].Ask? ==> os[i].p.at <= now)
  }

  // ---------------------------------------------------------------- what a walk finds

  ghost predicate Sorted(list: seq<Pending>) { forall i, j :: 0 <= i < j < |list| ==> list[i].at <= list[j].at }

  /** At most `room` requests for the target, in order of time, each of another requester not seen. */
  ghost predicate Found(w: seq<Pending>, os: seq<Turn>, t: nat, seen: set<Requester>, room: nat) {
    && |w| <= room && Distinct(w) && Sorted(w)
    && forall i :: 0 <= i < |w| ==> Who(w[i]) !in seen && Ask(t, w[i]) in os
  }

  lemma {:induction false} WalkFinds(os: seq<Turn>, t: nat, seen: set<Requester>, room: nat, now: int)
    requires Timed(os, now)
    ensures Found(Walk(os, t, seen, room), os, t, seen, room)
    decreases os
  {
    if os == [] { return; }
    var n := |os| - 1;
    var o := os[n];
    assert Timed(os[..n], now);
    if o.target != t || (o.Ask? && room > 0 && Who(o.p) in seen) {
      WalkFinds(os[..n], t, seen, room, now);
    } else if o.Ask? && room > 0 {
      WalkFinds(os[..n], t, seen + {Who(o.p)}, room - 1, now);
      hide Walk;
      FoundSnoc(Walk(os[..n], t, seen + {Who(o.p)}, room - 1), os, t, seen, room, now);
    }
  }

  lemma FoundSnoc(w: seq<Pending>, os: seq<Turn>, t: nat, seen: set<Requester>, room: nat, now: int)
    requires os != [] && room > 0 && Timed(os, now)
    requires var n := |os| - 1;
             && os[n].Ask? && os[n].target == t && Who(os[n].p) !in seen
             && Found(w, os[..n], t, seen + {Who(os[n].p)}, room - 1)
    ensures Found(w + [os[|os| - 1].p], os, t, seen, room)
  {
    var n := |os| - 1;
    var q := os[n].p;
    forall i | 0 <= i < |w| ensures w[i].at <= q.at && Who(w[i]) != Who(q) && Ask(t, w[i]) in os {
      assert Ask(t, w[i]) in os[..n];
    }
    assert os[n] == Ask(t, q);
  }

  function Last(list: seq<Pending>, n: nat): seq<Pending> { if |list| <= n then list else list[|list| - n..] }

  lemma {:induction false} DroppedSnoc(list: seq<Pending>, q: Pending, p: Pending)
    ensures !Same(q, p) ==> Dropped(list + [q], p) == Dropped(list, p) + [q]
    ensures Same(q, p) && (forall i :: 0 <= i < |list| ==> !Same(list[i], p)) ==> Dropped(list + [q], p) == list
  {
    if list != [] {
      assert (list + [q])[1..] == list[1..] + [q];
      DroppedSnoc(list[1..], q, p);
    } else {
      assert [q][1..] == [];
    }
  }

  lemma LastSnoc(list: seq<Pending>, q: Pending, n: nat)
    requires n > 0
    ensures Last(list + [q], n) == Last(list, n - 1) + [q]
  {
  }

  /** One turn of the walk. */
  lemma WalkOne(os: seq<Turn>, t: nat, seen: set<Requester>, room: nat)
    requires os != []
    ensures var n := |os| - 1;
            var o := os[n];
            Walk(os, t, seen, room) ==
            if o.target != t then Walk(os[..n], t, seen, room)
            else if o.Take? || room == 0 then []
            else if Who(o.p) in seen then Walk(os[..n], t, seen, room)
            else Walk(os[..n], t, seen + {Who(o.p)}, room - 1) + [o.p]
  {
  }

  /** Leaving one requester out of a walk. */
  ghost predicate LeavesOut(os: seq<Turn>, t: nat, seen: set<Requester>, room: nat, p: Pending) {
    Walk(os, t, seen + {Who(p)}, room) == Last(Dropped(Walk(os, t, seen, room + 1), p), room)
  }

  lemma {:induction false} WalkWithout(os: seq<Turn>, t: nat, seen: set<Requester>, room: nat, p: Pending, now: int)
    requires Timed(os, now) && Who(p) !in seen
    ensures LeavesOut(os, t, seen, room, p)
    decreases os
  {
    if os == [] { return; }
    var n := |os| - 1;
    var o := os[n];
    assert Timed(os[..n], now);
    hide Timed, LeavesOut;
    if o.target != t || (o.Ask? && Who(o.p) in seen) {
      WalkWithout(os[..n], t, seen, room, p, now);
      LeavesOutPassed(os, t, seen, room, p);
    } else if o.Take? {
      LeavesOutTaken(os, t, seen, room, p);
    } else {
      if Who(o.p) != Who(p) && room > 0 {
        WalkWithout(os[..n], t, seen + {Who(o.p)}, room - 1, p, now);
      }
      WalkFinds(os[..n], t, seen + {Who(o.p)}, room, now);
      LeavesOutAsked(os, t, seen, room, p);
    }
  }

  lemma LeavesOutPassed(os: seq<Turn>, t: nat, seen: set<Requester>, room: nat, p: Pending)
    requires os != [] && LeavesOut(os[..|os| - 1], t, seen, room, p)
    requires var o := os[|os| - 1]; o.target != t || (o.Ask? && Who(o.p) in seen)
    ensures LeavesOut(os, t, seen, room, p)
  {
    hide Walk, Dropped, Last;
    WalkOne(os, t, seen + {Who(p)}, room);
    WalkOne(os, t, seen, room + 1);
    NoneLast(Dropped(Walk(os, t, seen, room + 1), p));
  }

  lemma LeavesOutTaken(os: seq<Turn>, t: nat, seen: set<Requester>, room: nat, p: Pending)
    requires os != [] && os[|os| - 1] == Take(t)
    ensures LeavesOut(os, t, seen, room, p)
  {
    hide Walk, Dropped, Last;
    WalkOne(os, t, seen + {Who(p)}, room);
    WalkOne(os, t, seen, room + 1);
    NoneDropped(p, room);
  }

  lemma LeavesOutAsked(os: seq<Turn>, t: nat, seen: set<Requester>, room: nat, p: Pending)
    requires os != [] && Who(p) !in seen
    requires var n := |os| - 1;
             var o := os[n];
             && o.Ask? && o.target == t && Who(o.p) !in seen
             && Found(Walk(os[..n], t, seen + {Who(o.p)}, room), os[..n], t, seen + {Who(o.p)}, room)
             && (Who(o.p) != Who(p) && room > 0 ==> LeavesOut(os[..n], t, seen + {Who(o.p)}, room - 1, p))
    ensures LeavesOut(os, t, seen, room, p)
  {
    hide Walk, Dropped, Last, Found;
    var n := |os| - 1;
    var q := os[n].p;
    var inner := Walk(os[..n], t, seen + {Who(q)}, room);
    WalkOne(os, t, seen + {Who(p)}, room);
    WalkOne(os, t, seen, room + 1);
    FoundOthers(inner, os[..n], t, seen + {Who(q)}, room, Who(q));
    NewestWithout(inner, q, p, room);
    assert seen + {Who(q)} + {Who(p)} == seen + {Who(p)} + {Who(q)};
  }

  lemma NoneDropped(p: Pending, room: nat)
    ensures Last(Dropped([], p), room) == []
  {
  }

  lemma NoneLast(list: seq<Pending>)
    ensures Last(list, 0) == []
  {
  }

  lemma FoundOthers(w: seq<Pending>, os: seq<Turn>, t: nat, seen: set<Requester>, room: nat, who: Requester)
    requires Found(w, os, t, seen, room) && who in seen
    ensures |w| <= room && forall i :: 0 <= i < |w| ==> Who(w[i]) != who
  {
  }

  lemma NewestWithout(inner: seq<Pending>, q: Pending, p: Pending, room: nat)
    requires |inner| <= room && forall i :: 0 <= i < |inner| ==> Who(inner[i]) != Who(q)
    ensures Last(Dropped(inner + [q], p), room) ==
            if Who(q) == Who(p) then inner
            else if room == 0 then []
            else Last(Dropped(inner, p), room - 1) + [q]
  {
    DroppedSnoc(inner, q, p);
    if Who(q) != Who(p) && room > 0 { LastSnoc(Dropped(inner, p), q, room); }
  }

  // ---------------------------------------------------------------- what is live

  lemma {:induction false} LiveIsWithin(list: seq<Pending>, now: int)
    ensures Live(list, now) == Within(list, now)
  {
    if list != [] { LiveIsWithin(list[..|list| - 1], now); }
  }

  lemma {:induction false} LiveConcat(a: seq<Pending>, b: seq<Pending>, now: int)
    ensures Live(a + b, now) == Live(a, now) + Live(b, now)
  {
    if b == [] {
      assert a + b == a;
    } else {
      LiveConcat(a, b[..|b| - 1], now);
      assert (a + b)[..|a + b| - 1] == a + b[..|b| - 1];
    }
  }

  ghost predicate Stale(list: seq<Pending>, now: int) { forall i :: 0 <= i < |list| ==> !Fresh(list[i], now) }

  lemma {:induction false} StaleGone(list: seq<Pending>, now: int)
    requires Stale(list, now)
    ensures Live(list, now) == []
  {
    if list != [] { StaleGone(list[..|list| - 1], now); }
  }

  /** A second look at what was live finds what a first look at the later time would. */
  lemma {:induction false} LiveTwice(list: seq<Pending>, since: int, now: int)
    requires since <= now
    ensures Live(Live(list, since), now) == Live(list, now)
  {
    if list != [] {
      var n := |list| - 1;
      LiveTwice(list[..n], since, now);
      LiveConcat(Live(list[..n], since), if Fresh(list[n], since) then [list[n]] else [], now);
      LiveOne(list[n], now);
    }
  }

  lemma LiveOne(p: Pending, now: int)
    ensures Live([p], now) == if Fresh(p, now) then [p] else []
  {
    assert [p][..0] == [];
  }

  /** In order of time, the live ones are the last ones. */
  lemma {:induction false} LiveSuffix(list: seq<Pending>, now: int) returns (k: nat)
    requires Sorted(list)
    ensures k <= |list| && Live(list, now) == list[k..] && Stale(list[..k], now)
  {
    if list == [] {
      k := 0;
    } else {
      var n := |list| - 1;
      k := LiveSuffix(list[..n], now);
      LiveNext(list, now);
      hide Live;
      assert list[..n][..k] == list[..k];
      if Fresh(list[n], now) {
        assert list[..n][k..] + [list[n]] == list[k..];
      } else {
        StaleBefore(list, now);
        NoneFresh(list[..n], k, now);
        k := |list|;
        assert list[..|list|] == list;
      }
    }
  }

  lemma LiveNext(list: seq<Pending>, now: int)
    requires list != []
    ensures var n := |list| - 1;
            Live(list, now) == Live(list[..n], now) + if Fresh(list[n], now) then [list[n]] else []
  {
  }

  lemma StaleBefore(list: seq<Pending>, now: int)
    requires Sorted(list) && list != [] && !Fresh(list[|list| - 1], now)
    ensures Stale(list, now) && Stale(list[..|list| - 1], now)
  {
  }

  lemma NoneFresh(list: seq<Pending>, k: nat, now: int)
    requires k <= |list| && Live(list, now) == list[k..] && Stale(list, now)
    ensures list[k..] == []
  {
    StaleGone(list, now);
  }

  lemma {:induction false} DroppedConcat(a: seq<Pending>, b: seq<Pending>, p: Pending) returns (c: seq<Pending>)
    requires Distinct(a + b)
    ensures Dropped(a + b, p) == c + Dropped(b, p) && forall x :: x in c ==> x in a
  {
    if a == [] {
      c := [];
      assert a + b == b;
    } else if Same(a[0], p) {
      assert (a + b)[0] == a[0] && (a + b)[1..] == a[1..] + b;
      forall j | 0 <= j < |b| ensures !Same(b[j], p) {
        assert !Same((a + b)[0], (a + b)[|a| + j]);
      }
      DroppedNone(b, p);
      c := a[1..];
    } else {
      assert (a + b)[0] == a[0] && (a + b)[1..] == a[1..] + b;
      var d := DroppedConcat(a[1..], b, p);
      c := [a[0]] + d;
    }
  }

  lemma LastConcat(a: seq<Pending>, b: seq<Pending>, n: nat) returns (c: seq<Pending>)
    ensures Last(a + b, n) == c + Last(b, n) && forall x :: x in c ==> x in a
  {
    c := if |b| >= n then [] else a[if |a| + |b| <= n then 0 else |a| + |b| - n..];
  }

  lemma QueuedLast(list: seq<Pending>, p: Pending)
    ensures Queued(list, p) == Last(Dropped(list, p), 3) + [p]
  {
  }

  // ---------------------------------------------------------------- the batches

  function Turned(f: Foreign, o: Turn): Foreign {
    match o
    case Ask(t, p) => Add(f, t, p)
    case Take(t) => Removed(f, t)
  }

  function TurnedAll(os: seq<Turn>): Foreign {
    if os == [] then Foreign(map[], 0, -WINDOW) else Turned(TurnedAll(os[..|os| - 1]), os[|os| - 1])
  }

  function Held(f: Foreign, t: nat): seq<Pending> { if t in f.waits then f.waits[t].list else [] }

  lemma SweptHeld(f: Foreign, t: nat, since: int, now: int)
    requires since <= now
    ensures Live(Held(Swept(f, since), t), now) == Live(Held(f, t), now)
  {
    hide Live;
    if t in f.waits { LiveTwice(f.waits[t].list, since, now); }
    NoneLive(now);
  }

  lemma NoneLive(now: int)
    ensures Live([], now) == []
  {
  }

  lemma AddHeld(f: Foreign, t: nat, p: Pending, s: nat, now: int)
    requires p.at <= now
    ensures Held(Add(f, t, p), t) == Queued(Live(Held(f, t), p.at), p)
    ensures s != t ==> Live(Held(Add(f, t, p), s), now) == Live(Held(f, s), now)
  {
    SweptHeld(f, t, p.at, p.at);
    SweptHeld(f, s, p.at, now);
    QueuedFirst(p);
    NoneLive(p.at);
    hide Live, Swept, Queued;
  }

  /** One more request, on what was live and on all that was ever asked. */
  lemma AskedNext(all: seq<Pending>, p: Pending, now: int)
    requires Sorted(all) && Distinct(all) && p.at <= now
    ensures Live(Queued(Live(all, p.at), p), now) == Live(Last(Dropped(all, p), 3) + [p], now)
  {
    hide Live, Dropped, Queued, Last, Sorted;
    var k := LiveSuffix(all, p.at);
    var gone, live := all[..k], all[k..];
    assert all == gone + live;
    var c := DroppedConcat(gone, live, p);
    var d := LastConcat(c, Dropped(live, p), 3);
    StalePart(gone, d, p.at, now);
    var tail := Last(Dropped(live, p), 3) + [p];
    LiveConcat(d, tail, now);
    StaleGone(d, now);
    assert Last(Dropped(all, p), 3) + [p] == d + tail;
    QueuedLast(live, p);
  }

  lemma StalePart(gone: seq<Pending>, d: seq<Pending>, since: int, now: int)
    requires Stale(gone, since) && since <= now && forall x :: x in d ==> x in gone
    ensures Stale(d, now)
  {
    forall i | 0 <= i < |d| ensures !Fresh(d[i], now) {
      assert d[i] in d;
    }
  }

  lemma {:induction false} HeldIsWalked(os: seq<Turn>, t: nat, now: int)
    requires Timed(os, now)
    ensures Live(Held(TurnedAll(os), t), now) == Live(Walk(os, t, {}, 4), now)
    decreases os
  {
    hide Live, Queued, Swept, Dropped, Last;
    if os == [] { return; }
    var n := |os| - 1;
    var pre, o := os[..n], os[n];
    assert Timed(pre, now);
    if o.target != t {
      HeldIsWalked(pre, t, now);
      if o.Ask? { AddHeld(TurnedAll(pre), o.target, o.p, t, now); }
    } else if o.Ask? {
      assert Timed(pre, o.p.at);
      HeldIsWalked(pre, t, o.p.at);
      AddHeld(TurnedAll(pre), t, o.p, t, now);
      var all := Walk(pre, t, {}, 4);
      WalkFinds(pre, t, {}, 4, now);
      AskedNext(all, o.p, now);
      WalkWithout(pre, t, {}, 3, o.p, now);
      assert {} + {Who(o.p)} == {Who(o.p)};
    }
  }

  /**
   The live requesters of a target are exactly the last four that asked in the last 19
   seconds since its batch was taken, each by its latest request, in order of those: a
   request is gone only when it was taken, repeated, out of date, or followed by four others.
   */
  lemma QueueIsHistory(os: seq<Turn>, t: nat, now: int)
    requires Timed(os, now)
    ensures Taken(TurnedAll(os), t, now) == WaitingFor(os, t, now)
  {
    hide Live, Walk;
    HeldIsWalked(os, t, now);
    LiveIsWithin(Walk(os, t, {}, 4), now);
    NoneLive(now);
  }

  // ---------------------------------------------------------------- in the machine

  /** What an action asks or takes. */
  ghost function TurnOf(n: N, a: Action): seq<Turn>
    requires Enabled(n, a)
  {
    match a
    case Request(id, ipv4, port, now) => [Ask(id, Pending(ipv4, port, now, n.next))]
    case Tell(f, _) => [Take(n.flights[f].id)]
    case Fire(_, batch, _) => if HasGen(n.foreign, batch.target, batch.gen) then [Take(batch.target)] else []
    case _ => []
  }

  ghost function History(mac: Mac, n: N, acts: seq<Action>, m: N): seq<Turn>
    requires Run(mac, n, acts, m)
    decreases acts
  {
    if acts == [] then [] else TurnOf(n, acts[0]) + History(mac, Do(mac, n, acts[0]), acts[1..], m)
  }

  lemma TurnedNext(os: seq<Turn>, o: Turn)
    ensures TurnedAll(os + [o]) == Turned(TurnedAll(os), o)
  {
    hide Turned;
    assert (os + [o])[..|os|] == os;
  }

  /** Telling and firing take a batch, and nothing else of the queue. */
  lemma TookBatch(n: N, a: Action)
    requires Enabled(n, a) && (a.Tell? || a.Fire?)
    ensures var m := if a.Tell? then TellStep(n, a.f, a.now) else FireStep(n, a.f, a.batch, a.now);
            m.foreign == if TurnOf(n, a) == [] then n.foreign else Removed(n.foreign, TurnOf(n, a)[0].target)
  {
    hide Taken, Tickets, Notices;
  }

  lemma DoTurns(mac: Mac, n: N, a: Action, os: seq<Turn>)
    requires Enabled(n, a) && n.foreign == TurnedAll(os)
    ensures Do(mac, n, a).foreign == TurnedAll(os + TurnOf(n, a))
  {
    hide Add, TurnedAll, TellStep, FireStep, Kept, RememberStep, ViewStep, TryOwnStep, TryKeepaliveStep, Removed;
    var o := TurnOf(n, a);
    if o == [] {
      assert os + o == os;
    } else {
      TurnedNext(os, o[0]);
      assert o == [o[0]];
    }
    if a.Tell? || a.Fire? {
      TookBatch(n, a);
    } else if !a.Request? {
      QueueStill(mac, n, a);
    }
  }

  lemma {:induction false} RunTurns(mac: Mac, n: N, acts: seq<Action>, m: N, os: seq<Turn>)
    requires Run(mac, n, acts, m) && n.foreign == TurnedAll(os)
    ensures m.foreign == TurnedAll(os + History(mac, n, acts, m))
    decreases acts
  {
    hide TurnedAll, TurnOf, Do, Enabled;
    if acts == [] {
      assert os + [] == os;
    } else {
      var o, n' := TurnOf(n, acts[0]), Do(mac, n, acts[0]);
      DoTurns(mac, n, acts[0], os);
      RunTurns(mac, n', acts[1..], m, os + o);
      assert os + o + History(mac, n', acts[1..], m) == os + (o + History(mac, n', acts[1..], m));
    }
  }

  /** In every run of the machine the requesters a keepalive or a timer finds waiting are those of the history. */
  lemma WaitingExactly(mac: Mac, acts: seq<Action>, n: N, t: nat, now: int)
    requires Run(mac, START, acts, n) && Timed(History(mac, START, acts, n), now)
    ensures Taken(n.foreign, t, now) == WaitingFor(History(mac, START, acts, n), t, now)
  {
    hide TurnOf, Do, Timed, Enabled;
    assert START.foreign == TurnedAll([]);
    RunTurns(mac, START, acts, n, []);
    var os := History(mac, START, acts, n);
    assert [] + os == os;
    hide *;
    QueueIsHistory(os, t, now);
  }

  /** A believed keepalive answers every one of them, in order, with the endpoint it came from. */
  lemma TellAnswersAll(mac: Mac, n: N, f: nat, now: int)
    requires Enabled(n, Tell(f, now))
    ensures var m := Do(mac, n, Tell(f, now));
            var g := n.flights[f];
            var list := Taken(n.foreign, g.id, now);
            && |m.notices| == |n.notices| + |list| && m.notices[..|n.notices|] == n.notices && g.id !in m.foreign.waits
            && forall i :: 0 <= i < |list| ==>
                 m.notices[|n.notices| + i] == Notice(g.session, g.ep.ipv4, g.ep.port, list[i].ticket)
  {
    hide Taken;
  }

  /** Every batch that waits has its own fallback timer running. */
  ghost predicate TimersArmed(n: N) {
    forall t :: t in n.foreign.waits ==> Batch(t, n.foreign.waits[t].gen) in n.timers
  }

  lemma RequestArms(n: N, id: nat, p: Pending)
    requires TimersArmed(n)
    ensures TimersArmed(Requested(n, id, p))
  {
    hide Live, Queued;
  }

  lemma FireArms(n: N, f: nat, batch: Batch, now: int)
    requires TimersArmed(n)
    ensures TimersArmed(FireStep(n, f, batch, now))
  {
    hide Taken, Tickets;
  }

  lemma TellArms(n: N, f: nat, now: int)
    requires TimersArmed(n) && f in n.flights && n.flights[f].Remembered?
    ensures TimersArmed(TellStep(n, f, now))
  {
    hide Taken, Tickets, Notices;
  }

  lemma DoTimers(mac: Mac, n: N, a: Action)
    requires Enabled(n, a) && TimersArmed(n)
    ensures TimersArmed(Do(mac, n, a))
  {
    hide Requested, TellStep, FireStep, Kept, RememberStep, ViewStep, TryOwnStep, TryKeepaliveStep;
    match a
    case Request(id, ipv4, port, now) => RequestArms(n, id, Pending(ipv4, port, now, n.next));
    case Tell(f, now) => TellArms(n, f, now);
    case Fire(f, batch, now) => FireArms(n, f, batch, now);
    case _ => QueueStill(mac, n, a);
  }

  lemma {:induction false} RunTimers(mac: Mac, n: N, acts: seq<Action>, m: N)
    requires Run(mac, n, acts, m) && TimersArmed(n)
    ensures TimersArmed(m)
    decreases acts
  {
    hide Do, Enabled, TimersArmed;
    if acts != [] {
      DoTimers(mac, n, acts[0]);
      RunTimers(mac, Do(mac, n, acts[0]), acts[1..], m);
    }
  }

  /** So no request is left without a keepalive or a timer to answer it. */
  lemma NobodyForgotten(mac: Mac, acts: seq<Action>, n: N, t: nat, now: int)
    requires Run(mac, START, acts, n) && Taken(n.foreign, t, now) != []
    ensures t in n.foreign.waits && Batch(t, n.foreign.waits[t].gen) in n.timers
  {
    hide Do, Enabled, Live;
    RunTimers(mac, START, acts, n);
  }

  /** All requesters of a batch are told the same endpoint, in order, and nobody else is told anything. */
  ghost predicate Told(n: N, m: N, session: nat, ep: Recent, list: seq<Pending>) {
    && |m.notices| == |n.notices| + |list| && m.notices[..|n.notices|] == n.notices
    && forall i :: 0 <= i < |list| ==> m.notices[|n.notices| + i] == Notice(session, ep.ipv4, ep.port, list[i].ticket)
  }

  /** The fallback first tries the target's own request of the last 19 seconds, from the session's own address. */
  lemma OwnAnswers(mac: Mac, n: N, f: nat, now: int)
    requires Enabled(n, TryOwn(f, now))
    ensures var m, g := Do(mac, n, TryOwn(f, now)), n.flights[f];
            if g.id in n.own && now - n.own[g.id].at <= 19_000 && n.own[g.id].ipv4 == n.ip[g.session]
            then Told(n, m, g.session, n.own[g.id], g.list) && f !in m.flights
            else m.notices == n.notices && f in m.flights && m.flights[f] == Second(g.id, g.session, g.list)
  {
    hide Kept, TellStep, FireStep, RememberStep, ViewStep, TryKeepaliveStep, Requested;
  }

  /** And then the last keepalive of that session in ten minutes, from its own address or a proved one. */
  lemma KeepaliveAnswers(mac: Mac, n: N, f: nat, now: int)
    requires Enabled(n, TryKeepalive(f, now))
    ensures var m, g := Do(mac, n, TryKeepalive(f, now)), n.flights[f];
            && f !in m.flights
            && if && g.id in n.keepalives && now - n.keepalives[g.id].at <= 600_000
                  && n.keepalives[g.id].owner == g.session
                  && (n.keepalives[g.id].ipv4 == n.ip[g.session] || n.keepalives[g.id].proven)
               then Told(n, m, g.session, n.keepalives[g.id], g.list)
               else m.notices == n.notices
  {
    hide Kept, TellStep, FireStep, RememberStep, ViewStep, TryOwnStep, Requested;
  }

  /** A believed keepalive is remembered as the session's endpoint, with where it came from and whether that is proved. */
  lemma KeepFollows(mac: Mac, n: N, a: Action)
    requires a.Keep? && Enabled(n, a)
    ensures var m := Do(mac, n, a);
            var c := n.lowIds[a.id];
            if Believed(mac, StateOf(n, c), a.k) && a.src.Some? then
              && a.f in m.flights
              && m.flights[a.f] == Checked(c, a.id, Recent(a.src.value, a.port, a.now, c, |a.k.rest| == 20 && !a.k.sameIP))
            else m.flights == n.flights
  {
    hide Believed, Heard;
  }

  lemma RememberFollows(mac: Mac, n: N, f: nat)
    requires Enabled(n, Remember(f))
    ensures var m, g := Do(mac, n, Remember(f)), n.flights[f];
            && m.keepalives == n.keepalives[g.id := g.ep]
            && m.flights == n.flights[f := Remembered(g.session, g.id, g.ep)]
  {
  }
}
