/**
 Whole runs of the rendezvous registry: REGISTERs, keepalives and sweeps at the times they
 happen. The registry forgets candidates and reads its clock modulo 2^32; the ideal one
 beside it forgets nothing and never wraps. The two answer alike in every run exactly
 when the TTL plus the longest gap between sweeps is below 2^32 ms.
 */
module NatExpiry {
  import opened Bytes
  import opened NatRegistry

  datatype Event =
    | Register(key: Key, ep: Endpoint, sock: Byte, t: nat)
    | Keepalive(ep: Endpoint, sock: Byte, t: nat)
    | Sweep(t: nat)

  /** What the registry's methods do to its candidates. */
  ghost function Apply(ttl: nat, cs: Cands, e: Event): Cands {
    match e
    case Register(k, ep, sock, t) => Registered(cs, k, Cand(ep, sock, t))
    case Keepalive(ep, sock, t) => Touched(cs, ttl, ep, sock, t)
    case Sweep(t) => Swept(cs, ttl, t)
  }

  predicate TrulyLive(ttl: nat, now: nat, at: nat) { TrueAge(now, at) < ttl }

  ghost predicate TrulyHeard(cs: Cands, ttl: nat, ep: Endpoint, now: nat, k: Key) {
    Holds(cs, ep, k) && TrulyLive(ttl, now, cs[k].at)
  }

  /** The same events where nothing is swept and the clock does not wrap. */
  ghost function Ideal(ttl: nat, cs: Cands, e: Event): Cands {
    match e
    case Register(k, ep, sock, t) => Registered(cs, k, Cand(ep, sock, t))
    case Keepalive(ep, sock, t) => if k :| TrulyHeard(cs, ttl, ep, t, k) then cs[k := Cand(ep, sock, t)] else cs
    case Sweep(t) => cs
  }

  ghost function ApplyAll(ttl: nat, es: seq<Event>): Cands {
    if es == [] then map[] else Apply(ttl, ApplyAll(ttl, es[..|es| - 1]), es[|es| - 1])
  }

  ghost function IdealAll(ttl: nat, es: seq<Event>): Cands {
    if es == [] then map[] else Ideal(ttl, IdealAll(ttl, es[..|es| - 1]), es[|es| - 1])
  }

  function Now(es: seq<Event>): nat { if es == [] then 0 else es[|es| - 1].t }

  function LastSweep(es: seq<Event>): nat {
    if es == [] then 0
    else if es[|es| - 1].Sweep? then es[|es| - 1].t
    else LastSweep(es[..|es| - 1])
  }

  /** A time that can come next: not in the past, and no more than `gap` after the last sweep. */
  predicate Next(es: seq<Event>, gap: nat, t: nat) { Now(es) <= t <= LastSweep(es) + gap }

  predicate Schedule(es: seq<Event>, gap: nat) {
    es == [] || (Schedule(es[..|es| - 1], gap) && Next(es[..|es| - 1], gap, es[|es| - 1].t))
  }

  // ---------------------------------------------------------------- the clock never lies

  /** What ties the two: same candidates, except ones already too old to use. */
  ghost predicate Agree(ttl: nat, cs: Cands, id: Cands, now: nat, swept: nat) {
    && Unique(id)
    && (forall k :: k in cs ==> k in id && cs[k] == id[k])
    && (forall k :: k in id ==> id[k].at <= now)
    && (forall k :: k in id && k !in cs ==> !TrulyLive(ttl, now, id[k].at))
    && (forall k :: k in cs ==> swept + 1 <= cs[k].at + ttl + Skew(cs[k].at) || swept <= cs[k].at)
  }

  lemma LiveIsTrue(ttl: nat, gap: nat, now: nat, swept: nat, at: nat)
    requires 0 < ttl && ttl + gap <= WRAP - 1
    requires at <= now <= swept + gap
    requires swept + 1 <= at + ttl + Skew(at) || swept <= at
    ensures Live(ttl, now, at) <==> TrulyLive(ttl, now, at)
  {
    AgeIsTrue(now, at);
  }

  lemma AgreeLater(ttl: nat, cs: Cands, id: Cands, now: nat, later: nat, swept: nat)
    requires Agree(ttl, cs, id, now, swept) && now <= later
    ensures Agree(ttl, cs, id, later, swept)
  {
    forall k | k in id && k !in cs ensures !TrulyLive(ttl, later, id[k].at) {
      TrueAgeGrows(now, later, id[k].at);
    }
  }

  /** At every moment of the gap the two hold the same live candidates. */
  lemma AgreeLive(ttl: nat, gap: nat, cs: Cands, id: Cands, now: nat, swept: nat, k: Key)
    requires 0 < ttl && ttl + gap <= WRAP - 1
    requires Agree(ttl, cs, id, now, swept) && now <= swept + gap
    ensures k in cs && Live(ttl, now, cs[k].at) <==> k in id && TrulyLive(ttl, now, id[k].at)
  {
    hide Live, TrulyLive, Skew;
    if k in cs { LiveIsTrue(ttl, gap, now, swept, cs[k].at); }
  }

  lemma AgreeKeepalive(ttl: nat, gap: nat, cs: Cands, id: Cands, swept: nat, ep: Endpoint, sock: Byte, t: nat)
    requires 0 < ttl && ttl + gap <= WRAP - 1
    requires Agree(ttl, cs, id, t, swept) && swept <= t <= swept + gap
    ensures Agree(ttl, Touched(cs, ttl, ep, sock, t), Ideal(ttl, id, Keepalive(ep, sock, t)), t, swept)
  {
    hide Live, TrulyLive, Skew;
    forall k ensures HeardLive(cs, ttl, ep, t, k) <==> TrulyHeard(id, ttl, ep, t, k) {
      AgreeLive(ttl, gap, cs, id, t, swept, k);
    }
    if k :| HeardLive(cs, ttl, ep, t, k) {
      TouchedIs(cs, ttl, ep, sock, t, k);
    }
  }

  lemma AgreeSweep(ttl: nat, gap: nat, cs: Cands, id: Cands, swept: nat, t: nat)
    requires 0 < ttl && ttl + gap <= WRAP - 1
    requires Agree(ttl, cs, id, t, swept) && swept <= t <= swept + gap
    ensures Agree(ttl, Swept(cs, ttl, t), id, t, t)
  {
    hide Live, TrulyLive, Skew;
    forall k | k in id ensures k in Swept(cs, ttl, t) <==> TrulyLive(ttl, t, id[k].at) {
      AgreeLive(ttl, gap, cs, id, t, swept, k);
    }
    forall k | k in id && TrulyLive(ttl, t, id[k].at) ensures t + 1 <= id[k].at + ttl + Skew(id[k].at) {
      Recent(ttl, t, id[k].at);
    }
  }

  lemma AgreeStep(ttl: nat, gap: nat, cs: Cands, id: Cands, swept: nat, e: Event)
    requires 0 < ttl && ttl + gap <= WRAP - 1
    requires Agree(ttl, cs, id, e.t, swept) && swept <= e.t <= swept + gap
    ensures Agree(ttl, Apply(ttl, cs, e), Ideal(ttl, id, e), e.t, if e.Sweep? then e.t else swept)
  {
    match e
    case Register(k, ep, sock, t) =>
      hide Live, TrulyLive, Skew;
    case Keepalive(ep, sock, t) =>
      AgreeKeepalive(ttl, gap, cs, id, swept, ep, sock, t);
    case Sweep(t) =>
      AgreeSweep(ttl, gap, cs, id, swept, t);
  }

  lemma Recent(ttl: nat, now: nat, at: nat)
    requires TrulyLive(ttl, now, at)
    ensures now + 1 <= at + ttl + Skew(at)
  {
  }

  lemma {:induction false} RunAgrees(ttl: nat, gap: nat, es: seq<Event>)
    requires 0 < ttl && ttl + gap <= WRAP - 1 && Schedule(es, gap)
    ensures Agree(ttl, ApplyAll(ttl, es), IdealAll(ttl, es), Now(es), LastSweep(es))
    ensures LastSweep(es) <= Now(es) <= LastSweep(es) + gap
  {
    hide Agree, Apply, Ideal;
    if es == [] {
      AgreeEmpty(ttl);
    } else {
      var pre, e := es[..|es| - 1], es[|es| - 1];
      RunAgrees(ttl, gap, pre);
      AgreeLater(ttl, ApplyAll(ttl, pre), IdealAll(ttl, pre), Now(pre), e.t, LastSweep(pre));
      AgreeStep(ttl, gap, ApplyAll(ttl, pre), IdealAll(ttl, pre), LastSweep(pre), e);
    }
  }

  lemma AgreeEmpty(ttl: nat)
    ensures Agree(ttl, map[], map[], 0, 0)
  {
  }

  /** Whether a lookup at time `t` finds the candidate, in the registry and in the ideal one. */
  ghost predicate Found(ttl: nat, es: seq<Event>, t: nat, k: Key, c: Cand) {
    var cs := ApplyAll(ttl, es);
    k in cs && cs[k] == c && Live(ttl, t, c.at)
  }

  ghost predicate TrulyFound(ttl: nat, es: seq<Event>, t: nat, k: Key, c: Cand) {
    var id := IdealAll(ttl, es);
    k in id && id[k] == c && TrulyLive(ttl, t, c.at)
  }

  /** Neither the sweep nor the wrap can be seen: every lookup of every run finds what the ideal registry finds. */
  lemma WrapHarmless(ttl: nat, gap: nat, es: seq<Event>, t: nat, k: Key, c: Cand)
    requires 0 < ttl && ttl + gap <= WRAP - 1 && Schedule(es, gap) && Next(es, gap, t)
    ensures Found(ttl, es, t, k, c) <==> TrulyFound(ttl, es, t, k, c)
    ensures Found(ttl, es, t, k, c) ==> c.at <= t <= c.at + ttl
    ensures k in IdealAll(ttl, es) && IdealAll(ttl, es)[k] == c && t + 2 <= c.at + ttl ==> Found(ttl, es, t, k, c)
  {
    var cs, id := ApplyAll(ttl, es), IdealAll(ttl, es);
    RunAgrees(ttl, gap, es);
    AgreeLater(ttl, cs, id, Now(es), t, LastSweep(es));
    AgreeLive(ttl, gap, cs, id, t, LastSweep(es), k);
  }

  // ---------------------------------------------------------------- who holds an endpoint

  /** The last REGISTER of the key, and of the endpoint, is one of both. */
  ghost predicate LastFor(es: seq<Event>, k: Key, ep: Endpoint, i: nat) {
    && i < |es| && es[i].Register? && es[i].key == k && es[i].ep == ep
    && forall j :: i < j < |es| && es[j].Register? ==> es[j].key != k && es[j].ep != ep
  }

  /** A key holds an endpoint exactly when nobody registered either of them since. */
  lemma {:induction false} HolderIsLast(ttl: nat, es: seq<Event>, k: Key, ep: Endpoint)
    ensures k in IdealAll(ttl, es) && IdealAll(ttl, es)[k].ep == ep <==> exists i :: LastFor(es, k, ep, i)
    decreases es
  {
    if es == [] { return; }
    var n := |es| - 1;
    var pre, e := es[..n], es[n];
    HolderIsLast(ttl, pre, k, ep);
    HoldersNext(ttl, IdealAll(ttl, pre), e, k, ep);
    hide Ideal;
    if e.Register? && e.key == k && e.ep == ep {
      assert LastFor(es, k, ep, n);
    } else if e.Register? && (e.key == k || e.ep == ep) {
      assert forall i :: !LastFor(es, k, ep, i);
    } else {
      forall i ensures LastFor(es, k, ep, i) <==> LastFor(pre, k, ep, i) {
        LastForNext(es, k, ep, i);
      }
    }
  }

  lemma LastForNext(es: seq<Event>, k: Key, ep: Endpoint, i: nat)
    requires es != [] && (es[|es| - 1].Register? ==> es[|es| - 1].key != k && es[|es| - 1].ep != ep)
    ensures LastFor(es, k, ep, i) <==> LastFor(es[..|es| - 1], k, ep, i)
  {
    var pre := es[..|es| - 1];
    assert forall j :: 0 <= j < |pre| ==> pre[j] == es[j];
  }

  lemma HoldersNext(ttl: nat, cs: Cands, e: Event, k: Key, ep: Endpoint)
    ensures var after := Ideal(ttl, cs, e);
            k in after && after[k].ep == ep <==>
            if e.Register? && (e.key == k || e.ep == ep) then e.key == k && e.ep == ep else k in cs && cs[k].ep == ep
  {
  }

  // ---------------------------------------------------------------- and the bound is exact

  /** One REGISTER at 1 ms, then a sweep every millisecond up to n. */
  function Sweeps(k: Key, ep: Endpoint, n: nat): seq<Event>
    requires n > 0
  {
    if n == 1 then [Register(k, ep, 0, 1), Sweep(1)] else Sweeps(k, ep, n - 1) + [Sweep(n)]
  }

  lemma Snoc(ttl: nat, gap: nat, es: seq<Event>, e: Event)
    ensures ApplyAll(ttl, es + [e]) == Apply(ttl, ApplyAll(ttl, es), e)
    ensures IdealAll(ttl, es + [e]) == Ideal(ttl, IdealAll(ttl, es), e)
    ensures Now(es + [e]) == e.t && LastSweep(es + [e]) == if e.Sweep? then e.t else LastSweep(es)
    ensures Schedule(es + [e], gap) <==> Schedule(es, gap) && Next(es, gap, e.t)
  {
    hide Apply, Ideal, Next;
    assert (es + [e])[..|es|] == es;
  }

  lemma SweptOne(ttl: nat, k: Key, c: Cand, t: nat)
    requires Live(ttl, t, c.at)
    ensures Apply(ttl, map[k := c], Sweep(t)) == map[k := c] == Ideal(ttl, map[k := c], Sweep(t))
  {
    hide Live;
  }

  lemma RegisteredOne(ttl: nat, k: Key, ep: Endpoint)
    ensures Apply(ttl, map[], Register(k, ep, 0, 1)) == map[k := Cand(ep, 0, 1)] == Ideal(ttl, map[], Register(k, ep, 0, 1))
  {
  }

  lemma FirstSweep(ttl: nat, gap: nat, k: Key, ep: Endpoint)
    requires gap > 0 && Live(ttl, 1, 1)
    ensures var es := [Register(k, ep, 0, 1), Sweep(1)];
            && Schedule(es, gap) && Now(es) == LastSweep(es) == 1
            && ApplyAll(ttl, es) == map[k := Cand(ep, 0, 1)] == IdealAll(ttl, es)
  {
    var none: seq<Event> := [];
    var e := Register(k, ep, 0, 1);
    assert Schedule(none, gap) && Next(none, gap, 1) && LastSweep(none) == 0;
    assert ApplyAll(ttl, none) == map[] == IdealAll(ttl, none);
    hide Live, ApplyAll, IdealAll, Schedule, Apply, Ideal, LastSweep, Now;
    Snoc(ttl, gap, none, e);
    assert none + [e] == [e];
    RegisteredOne(ttl, k, ep);
    Snoc(ttl, gap, [e], Sweep(1));
    assert [e] + [Sweep(1)] == [e, Sweep(1)];
    SweptOne(ttl, k, Cand(ep, 0, 1), 1);
  }

  /** As long as the wrapping clock calls it young, the candidate outlives every sweep. */
  lemma {:induction false} SweepsKeep(ttl: nat, gap: nat, k: Key, ep: Endpoint, n: nat)
    requires n > 0 && gap > 0 && forall i :: 1 <= i <= n ==> Live(ttl, i, 1)
    ensures var es := Sweeps(k, ep, n);
            && Schedule(es, gap) && Now(es) == LastSweep(es) == n
            && ApplyAll(ttl, es) == map[k := Cand(ep, 0, 1)] == IdealAll(ttl, es)
  {
    hide Live, ApplyAll, IdealAll, Schedule, Apply, Ideal, LastSweep, Now;
    if n == 1 {
      FirstSweep(ttl, gap, k, ep);
    } else {
      SweepsKeep(ttl, gap, k, ep, n - 1);
      Snoc(ttl, gap, Sweeps(k, ep, n - 1), Sweep(n));
      SweptOne(ttl, k, Cand(ep, 0, 1), n);
    }
  }

  /** Past the bound, some run hands out a candidate that expired a wrap ago. */
  lemma WrapHarmful(ttl: nat, gap: nat, k: Key, ep: Endpoint) returns (es: seq<Event>, t: nat)
    requires 0 < ttl && 0 < gap && ttl + gap >= WRAP
    ensures Schedule(es, gap) && Next(es, gap, t)
    ensures Found(ttl, es, t, k, Cand(ep, 0, 1)) && !TrulyFound(ttl, es, t, k, Cand(ep, 0, 1))
  {
    var n := if ttl < WRAP then ttl else ttl + 1;
    t := if ttl < WRAP then WRAP else ttl + 1;
    forall i | 1 <= i <= n ensures Live(ttl, i, 1) {
      if ttl < WRAP { AgeIsTrue(i, 1); }
    }
    SweepsKeep(ttl, gap, k, ep, n);
    es := Sweeps(k, ep, n);
  }
}
