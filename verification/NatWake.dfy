/**
 Waking a rendezvous target over TCP (ed2k/natwake.go). A SYNC2 whose target is not
 registered joins a batch of requesters waiting on that target; the batch ends when the
 target registers or its timer fires, and then every requester in it is answered.

 The machine interleaves any number of SYNC2 callers, whose two critical sections have an
 unlocked TCP write between them, with REGISTERs and timers. A timer may fire and then
 wait for the lock while a REGISTER resets it, so a batch can have several expiries in
 flight.
 */
module NatWake {
  import opened Bytes
  import opened NatRegistry

  const MAX_PENDING: nat := 4096
  const MAX_WAITERS: nat := 4
  const NOT_REGISTERED: Byte := 1

  /** One requester: its hash, and what its answer needs. */
  datatype Waiter = Waiter(hash: Hash, connAck: seq<Byte>, remote: Remote, conn: nat)

  // ---------------------------------------------------------------- the waiters of one target

  ghost predicate Distinct(ws: seq<Waiter>) {
    forall i, j :: 0 <= i < j < |ws| ==> ws[i].hash != ws[j].hash
  }

  predicate Among(ws: seq<Waiter>, h: Hash) { exists i :: 0 <= i < |ws| && ws[i].hash == h }

  function Replaced(ws: seq<Waiter>, w: Waiter): seq<Waiter> {
    seq(|ws|, i requires 0 <= i < |ws| => if ws[i].hash == w.hash then w else ws[i])
  }

  predicate Accepts(ws: seq<Waiter>, h: Hash) { Among(ws, h) || |ws| < MAX_WAITERS }

  /** A repeated SYNC2 replaces its earlier one; a new requester is added while there is room. */
  function Added(ws: seq<Waiter>, w: Waiter): seq<Waiter> {
    if Among(ws, w.hash) then Replaced(ws, w)
    else if |ws| < MAX_WAITERS then ws + [w]
    else ws
  }

  method AddWaiter(ws: seq<Waiter>, w: Waiter) returns (r: seq<Waiter>, ok: bool)
    requires Distinct(ws)
    ensures r == Added(ws, w) && ok == Accepts(ws, w.hash)
  {
    for i := 0 to |ws|
      invariant forall j :: 0 <= j < i ==> ws[j].hash != w.hash
    {
      if ws[i].hash == w.hash {
        assert ws[i := w] == Replaced(ws, w);
        return ws[i := w], true;
      }
    }
    if |ws| >= MAX_WAITERS {
      return ws, false;
    }
    return ws + [w], true;
  }

  /** Who waits afterwards: everyone who did, and `w` in place of any earlier SYNC2 of its own. */
  lemma AddedWaits(ws: seq<Waiter>, w: Waiter)
    requires Distinct(ws) && |ws| <= MAX_WAITERS
    ensures var r := Added(ws, w);
            && Distinct(r) && |ws| <= |r| <= MAX_WAITERS
            && (Accepts(ws, w.hash) ==> w in r)
            && (forall v :: v in r && v != w ==> v in ws)
            && (forall v :: v in ws && v.hash != w.hash ==> v in r)
  {
    var r := Added(ws, w);
    if Among(ws, w.hash) {
      var i :| 0 <= i < |ws| && ws[i].hash == w.hash;
      assert r[i] == w;
      forall v | v in ws && v.hash != w.hash ensures v in r {
        var j :| 0 <= j < |ws| && ws[j] == v;
        assert r[j] == v;
      }
    }
  }

  // ---------------------------------------------------------------- the answers of one batch

  /** A datagram to send: a SYNC introducing one peer to the other, or a failure. */
  datatype Outbound =
    | Sync(to: Remote, v6: bool, peer: Remote, peerHash: Hash, connAck: seq<Byte>, peerVersion: Byte,
           forward: bool, sock: Byte, via: Option<nat>)
    | Failed(to: Remote, target: Hash, reason: Byte, via: Option<nat>)

  /** The candidate of a client in one family. */
  function In(c: Client, v6: bool): Option<Candidate> { if v6 then c.v6 else c.v4 }

  predicate Share(src: Client, dst: Client, v6: bool) { In(src, v6).Some? && In(dst, v6).Some? }

  function PairOn(src: Client, dst: Client, v6: bool, connAck: seq<Byte>): seq<Outbound>
    requires Share(src, dst, v6)
  {
    var s, d := In(src, v6).value, In(dst, v6).value;
    [Sync(s.addr, v6, d.addr, dst.hash, connAck, dst.version, false, 0, None),
     Sync(d.addr, v6, s.addr, src.hash, connAck, src.version, true, d.sock, None)]
  }

  function PairOutbound(src: Client, dst: Client, connAck: seq<Byte>, v6Enabled: bool): seq<Outbound> {
    if v6Enabled && Share(src, dst, true) then PairOn(src, dst, true, connAck)
    else if Share(src, dst, false) then PairOn(src, dst, false, connAck)
    else []
  }

  /** What one requester of a finished wait is sent: the introduction, or failure 1. */
  function AnswerTo(w: Waiter, target: Hash, src: Option<Client>, dst: Option<Client>, v6Enabled: bool): seq<Outbound> {
    var pair := if src.Some? && dst.Some? then PairOutbound(src.value, dst.value, w.connAck, v6Enabled) else [];
    if pair == [] then [Failed(w.remote, target, NOT_REGISTERED, Some(w.conn))]
    else [pair[0].(via := Some(w.conn))] + pair[1..]
  }

  /** `srcs` is what the registry said of each requester when its turn came, `dst` of the target. */
  function Answers(ws: seq<Waiter>, srcs: seq<Option<Client>>, target: Hash, dst: Option<Client>, v6Enabled: bool): seq<Outbound>
    requires |srcs| == |ws|
  {
    if ws == [] then []
    else
      var n := |ws| - 1;
      Answers(ws[..n], srcs[..n], target, dst, v6Enabled) + AnswerTo(ws[n], target, srcs[n], dst, v6Enabled)
  }

  /** The body of the loop below. */
  method AnswerWaiter(w: Waiter, target: Hash, src: Option<Client>, dst: Option<Client>, v6Enabled: bool) returns (one: seq<Outbound>)
    ensures one == AnswerTo(w, target, src, dst, v6Enabled)
  {
    var pair := if src.Some? && dst.Some? then PairOutbound(src.value, dst.value, w.connAck, v6Enabled) else [];
    if pair == [] {
      one := [Failed(w.remote, target, NOT_REGISTERED, Some(w.conn))];
    } else {
      one := [pair[0].(via := Some(w.conn))] + pair[1..];
    }
  }

  method WakeOutbound(ws: seq<Waiter>, srcs: seq<Option<Client>>, target: Hash, dst: Option<Client>, v6Enabled: bool)
    returns (out: seq<Outbound>)
    requires |srcs| == |ws|
    ensures out == Answers(ws, srcs, target, dst, v6Enabled)
    ensures EachOnce(ws, srcs, target, dst, v6Enabled, ToRequesters(out))
  {
    hide EachOnce, ToRequesters, AnswerTo;
    AnswersEachOnce(ws, srcs, target, dst, v6Enabled);
    out := [];
    for i := 0 to |ws|
      invariant out == Answers(ws[..i], srcs[..i], target, dst, v6Enabled)
    {
      assert ws[..i + 1][..i] == ws[..i] && srcs[..i + 1][..i] == srcs[..i];
      var one := AnswerWaiter(ws[i], target, srcs[i], dst, v6Enabled);
      out := out + one;
    }
    assert ws[..|ws|] == ws && srcs[..|ws|] == srcs;
  }

  /** The datagrams that answer a requester, as opposed to the ones that go to the target. */
  function ToRequesters(out: seq<Outbound>): seq<Outbound> {
    if out == [] then []
    else ToRequesters(out[..|out| - 1]) +
         (var o := out[|out| - 1]; if o.Sync? && o.forward then [] else [o])
  }

  lemma {:induction false} ToRequestersConcat(a: seq<Outbound>, b: seq<Outbound>)
    ensures ToRequesters(a + b) == ToRequesters(a) + ToRequesters(b)
  {
    if b == [] {
      assert a + b == a;
    } else {
      ToRequestersConcat(a, b[..|b| - 1]);
      assert (a + b)[..|a + b| - 1] == a + b[..|b| - 1];
    }
  }

  /** The introduction tells each peer the other's endpoint in one family, IPv6 when both can. */
  lemma PairIntroduces(src: Client, dst: Client, connAck: seq<Byte>, v6Enabled: bool)
    ensures var out := PairOutbound(src, dst, connAck, v6Enabled);
            && (out == [] <==> !Share(src, dst, false) && !(v6Enabled && Share(src, dst, true)))
            && (out != [] ==>
                  && |out| == 2 && out[0].Sync? && out[1].Sync?
                  && out[0].v6 == out[1].v6 == (v6Enabled && Share(src, dst, true))
                  && out[0].to == out[1].peer && out[1].to == out[0].peer
                  && Share(src, dst, out[0].v6)
                  && out[0].to == In(src, out[0].v6).value.addr && out[1].to == In(dst, out[0].v6).value.addr
                  && out[0].peerHash == dst.hash && out[1].peerHash == src.hash
                  && out[0].peerVersion == dst.version && out[1].peerVersion == src.version
                  && out[0].connAck == out[1].connAck == connAck
                  && !out[0].forward && out[1].forward && out[1].sock == In(dst, out[0].v6).value.sock)
  {
  }

  /** Whether both sides are registered in IPv6, and whether in any family that may be used. */
  predicate BothV6(src: Option<Client>, dst: Option<Client>, v6Enabled: bool) {
    v6Enabled && src.Some? && dst.Some? && src.value.v6.Some? && dst.value.v6.Some?
  }

  predicate Paired(src: Option<Client>, dst: Option<Client>, v6Enabled: bool) {
    BothV6(src, dst, v6Enabled) || (src.Some? && dst.Some? && src.value.v4.Some? && dst.value.v4.Some?)
  }

  /**
   The datagram that answers a requester, through the socket its SYNC2 came in on: to its
   own candidate, with the target's, in the family both have; or failure 1 to where it asked from.
   */
  ghost predicate IsAnswer(w: Waiter, target: Hash, src: Option<Client>, dst: Option<Client>, v6Enabled: bool, o: Outbound) {
    if Paired(src, dst, v6Enabled) then
      var v6 := BothV6(src, dst, v6Enabled);
      var s := if v6 then src.value.v6.value else src.value.v4.value;
      var d := if v6 then dst.value.v6.value else dst.value.v4.value;
      o == Sync(s.addr, v6, d.addr, dst.value.hash, w.connAck, dst.value.version, false, 0, Some(w.conn))
    else o == Failed(w.remote, target, 0x01, Some(w.conn))
  }

  /** The datagram that goes with it to the target, from the target's own socket, with the requester's candidate. */
  ghost predicate IsForward(w: Waiter, src: Option<Client>, dst: Option<Client>, v6Enabled: bool, o: Outbound) {
    && Paired(src, dst, v6Enabled)
    && var v6 := BothV6(src, dst, v6Enabled);
       var s := if v6 then src.value.v6.value else src.value.v4.value;
       var d := if v6 then dst.value.v6.value else dst.value.v4.value;
       o == Sync(d.addr, v6, s.addr, src.value.hash, w.connAck, src.value.version, true, d.sock, None)
  }

  /** One answer goes to the requester, and one forward to the target exactly when it is an introduction. */
  lemma AnswerToOne(w: Waiter, target: Hash, src: Option<Client>, dst: Option<Client>, v6Enabled: bool)
    ensures var one := AnswerTo(w, target, src, dst, v6Enabled);
            && one != [] && IsAnswer(w, target, src, dst, v6Enabled, one[0]) && ToRequesters(one) == [one[0]]
            && |one| == (if Paired(src, dst, v6Enabled) then 2 else 1)
            && (|one| == 2 ==> IsForward(w, src, dst, v6Enabled, one[1]))
  {
    AnswerShape(w, target, src, dst, v6Enabled);
    var one := AnswerTo(w, target, src, dst, v6Enabled);
    hide AnswerTo, ToRequesters;
    FirstToRequester(one);
  }

  lemma AnswerShape(w: Waiter, target: Hash, src: Option<Client>, dst: Option<Client>, v6Enabled: bool)
    ensures var one := AnswerTo(w, target, src, dst, v6Enabled);
            && one != [] && IsAnswer(w, target, src, dst, v6Enabled, one[0])
            && |one| == (if Paired(src, dst, v6Enabled) then 2 else 1)
            && (|one| == 2 ==> IsForward(w, src, dst, v6Enabled, one[1]))
  {
  }

  lemma FirstToRequester(one: seq<Outbound>)
    requires 1 <= |one| <= 2 && !(one[0].Sync? && one[0].forward) && (|one| == 2 ==> one[1].Sync? && one[1].forward)
    ensures ToRequesters(one) == [one[0]]
  {
    var head := [one[0]];
    assert head[..0] == [] && ToRequesters(head) == head;
    if |one| == 1 {
      assert one == head;
    } else {
      assert one[..1] == head;
    }
  }

  /** One datagram for each requester, in order, and it is that requester's answer. */
  ghost predicate EachOnce(
    ws: seq<Waiter>, srcs: seq<Option<Client>>, target: Hash, dst: Option<Client>, v6Enabled: bool, r: seq<Outbound>)
  {
    && |r| == |ws| == |srcs|
    && forall i :: 0 <= i < |ws| ==> IsAnswer(ws[i], target, srcs[i], dst, v6Enabled, r[i])
  }

  lemma EachOnceSnoc(
    ws: seq<Waiter>, srcs: seq<Option<Client>>, target: Hash, dst: Option<Client>, v6Enabled: bool, r: seq<Outbound>, o: Outbound)
    requires |srcs| == |ws| > 0
    requires var n := |ws| - 1;
             && EachOnce(ws[..n], srcs[..n], target, dst, v6Enabled, r)
             && IsAnswer(ws[n], target, srcs[n], dst, v6Enabled, o)
    ensures EachOnce(ws, srcs, target, dst, v6Enabled, r + [o])
  {
    hide IsAnswer;
    var n := |ws| - 1;
    assert forall i :: 0 <= i < n ==> ws[i] == ws[..n][i] && srcs[i] == srcs[..n][i];
  }

  /** Every requester of a finished wait is answered once. */
  lemma {:induction false} AnswersEachOnce(
    ws: seq<Waiter>, srcs: seq<Option<Client>>, target: Hash, dst: Option<Client>, v6Enabled: bool)
    requires |srcs| == |ws|
    ensures EachOnce(ws, srcs, target, dst, v6Enabled, ToRequesters(Answers(ws, srcs, target, dst, v6Enabled)))
    decreases ws
  {
    hide AnswerTo;
    if ws == [] { return; }
    hide ToRequesters, EachOnce;
    var n := |ws| - 1;
    var one := AnswerTo(ws[n], target, srcs[n], dst, v6Enabled);
    var before := Answers(ws[..n], srcs[..n], target, dst, v6Enabled);
    AnswersEachOnce(ws[..n], srcs[..n], target, dst, v6Enabled);
    AnswerToOne(ws[n], target, srcs[n], dst, v6Enabled);
    ToRequestersConcat(before, one);
    EachOnceSnoc(ws, srcs, target, dst, v6Enabled, ToRequesters(before), one[0]);
  }

  /** Whatever else is sent introduces one of them to the target. */
  lemma {:induction false} ForwardsIntroduce(
    ws: seq<Waiter>, srcs: seq<Option<Client>>, target: Hash, dst: Option<Client>, v6Enabled: bool, o: Outbound)
    requires |srcs| == |ws| && o in Answers(ws, srcs, target, dst, v6Enabled)
    ensures exists i :: 0 <= i < |ws| &&
              (IsAnswer(ws[i], target, srcs[i], dst, v6Enabled, o) || IsForward(ws[i], srcs[i], dst, v6Enabled, o))
    decreases ws
  {
    hide AnswerTo, IsAnswer, IsForward;
    if ws == [] { return; }
    var n := |ws| - 1;
    var one := AnswerTo(ws[n], target, srcs[n], dst, v6Enabled);
    AnswerToOne(ws[n], target, srcs[n], dst, v6Enabled);
    if o !in one {
      ForwardsIntroduce(ws[..n], srcs[..n], target, dst, v6Enabled, o);
    }
  }

  // ---------------------------------------------------------------- the machine

  datatype Families = Families(v4: bool, v6: bool) {
    function Plus(o: Families): Families { Families(v4 || o.v4, v6 || o.v6) }
    predicate None() { !v4 && !v6 }
  }

  /** An answered wait keeps what the registry said when it was. */
  datatype Phase = Waiting | Ending | Answered(srcs: seq<Option<Client>>, dst: Option<Client>, v6Enabled: bool)

  /** A woken target's wait. `armed` is its timer, `firing` the expiries that fired and wait for the lock. */
  datatype Batch = Batch(
    target: Hash, families: Families, waiters: seq<Waiter>, graced: bool, armed: bool, firing: nat, phase: Phase)

  /** A SYNC2 between its two critical sections. */
  datatype Caller = Caller(target: Hash, waiter: Waiter, families: Families)

  /** Something of one batch: a SYNC2 that was told to wait there, or a datagram sent for it. */
  datatype Ticket<T> = Ticket(batch: nat, item: T)

  datatype W = W(
    pending: map<Hash, nat>, batches: seq<Batch>, callers: map<nat, Caller>, peak: nat,
    accepted: seq<Ticket<Waiter>>, sent: seq<Ticket<Outbound>>)

  const START: W := W(map[], [], map[], 0, [], [])

  datatype Action =
    | First(id: nat, target: Hash, waiter: Waiter, families: Families)
    | WakeFailed(id: nat)
    | Second(id: nat)
    | Complete(target: Hash, v6: bool)
    | Fire(batch: nat)
    | Expire(batch: nat)
    | Answer(batch: nat, srcs: seq<Option<Client>>, dst: Option<Client>, v6Enabled: bool)

  ghost predicate Enabled(w: W, a: Action) {
    match a
    case First(id, target, waiter, families) => id !in w.callers && waiter.hash != target && !families.None()
    case WakeFailed(id) => id in w.callers
    case Second(id) => id in w.callers
    case Complete(_, _) => true
    case Fire(b) => b < |w.batches| && w.batches[b].armed
    case Expire(b) => b < |w.batches| && w.batches[b].firing > 0
    case Answer(b, srcs, _, _) => b < |w.batches| && w.batches[b].phase.Ending? && |srcs| == |w.batches[b].waiters|
  }

  /** Joining a wait under the lock; the families are widened even when there is no room. */
  ghost function Join(w: W, b: nat, waiter: Waiter, families: Families): W
    requires b < |w.batches|
  {
    var p := w.batches[b];
    w.(batches := w.batches[b := p.(families := p.families.Plus(families), waiters := Added(p.waiters, waiter))],
    accepted := if Accepts(p.waiters, waiter.hash) then w.accepted + [Ticket(b, waiter)] else w.accepted)
  }

  /** Opening a wait under the lock, its timer running. */
  ghost function Open(w: W, c: Caller): W {
    w.(pending := w.pending[c.target := |w.batches|],
    batches := w.batches + [Batch(c.target, c.families, [c.waiter], false, true, 0, Waiting)],
    accepted := w.accepted + [Ticket(|w.batches|, c.waiter)])
  }

  /** Ending a wait under the lock. */
  ghost function End(w: W, b: nat, p: Batch): W
    requires b < |w.batches|
  {
    w.(pending := w.pending - {p.target}, batches := w.batches[b := p.(phase := Ending)])
  }

  function Max(a: nat, b: nat): nat { if a < b then b else a }

  function Tickets<T>(b: nat, items: seq<T>): seq<Ticket<T>> {
    seq(|items|, i requires 0 <= i < |items| => Ticket(b, items[i]))
  }

  ghost predicate Sound(w: W) { forall h :: h in w.pending ==> w.pending[h] < |w.batches| }

  ghost function Do(w: W, a: Action): W
    requires Sound(w) && Enabled(w, a)
  {
    match a
    case First(id, target, waiter, families) =>
      if target in w.pending then Join(w, w.pending[target], waiter, families)
      else if |w.pending| >= MAX_PENDING then w
      else
        var callers := w.callers[id := Caller(target, waiter, families)];
        w.(callers := callers, peak := Max(w.peak, |callers|))
    case WakeFailed(id) => w.(callers := w.callers - {id})
    case Second(id) =>
      var c := w.callers[id];
      var v := w.(callers := w.callers - {id});
      if c.target in w.pending then Join(v, w.pending[c.target], c.waiter, c.families)
      else Open(v, c)
    case Complete(target, v6) =>
      if target !in w.pending then w
      else
        var b := w.pending[target];
        var p := w.batches[b];
        if !(if v6 then p.families.v6 else p.families.v4) then w
        else if !v6 && p.families.v6 then
          // the IPv6 grace: the timer is reset once, even if it fired already
          if p.graced then w else w.(batches := w.batches[b := p.(graced := true, armed := true)])
        else End(w, b, p.(armed := false))
    case Fire(b) =>
      var p := w.batches[b];
      w.(batches := w.batches[b := p.(armed := false, firing := p.firing + 1)])
    case Expire(b) =>
      var p := w.batches[b].(firing := w.batches[b].firing - 1);
      if p.target in w.pending && w.pending[p.target] == b then End(w, b, p)
      else w.(batches := w.batches[b := p])
    case Answer(b, srcs, dst, v6Enabled) =>
      var p := w.batches[b];
      w.(batches := w.batches[b := p.(phase := Answered(srcs, dst, v6Enabled))],
      sent := w.sent + Tickets(b, Answers(p.waiters, srcs, p.target, dst, v6Enabled)))
  }

  // ---------------------------------------------------------------- what every step keeps

  /** What one batch was given, in order. */
  function Of<T>(ts: seq<Ticket<T>>, b: nat): seq<T> {
    if ts == [] then []
    else Of(ts[..|ts| - 1], b) + (var t := ts[|ts| - 1]; if t.batch == b then [t.item] else [])
  }

  /** The wait those SYNC2s make, one joining after the other. */
  function Waited(ws: seq<Waiter>): seq<Waiter> {
    if ws == [] then [] else Added(Waited(ws[..|ws| - 1]), ws[|ws| - 1])
  }

  /** Each of them found room, or its own earlier SYNC2. */
  ghost predicate AllAccepted(ws: seq<Waiter>) {
    ws == [] || (AllAccepted(ws[..|ws| - 1]) && Accepts(Waited(ws[..|ws| - 1]), ws[|ws| - 1].hash))
  }

  /** Every one of them still waits, by its latest SYNC2. */
  lemma {:induction false} WaitedHolds(ws: seq<Waiter>, i: nat)
    requires AllAccepted(ws)
    ensures Distinct(Waited(ws)) && |Waited(ws)| <= MAX_WAITERS
    ensures i < |ws| ==> Among(Waited(ws), ws[i].hash)
    ensures i < |ws| && (forall j :: i < j < |ws| ==> ws[j].hash != ws[i].hash) ==> ws[i] in Waited(ws)
  {
    if ws == [] { return; }
    hide Added;
    var n := |ws| - 1;
    WaitedHolds(ws[..n], i);
    AddedWaits(Waited(ws[..n]), ws[n]);
    AmongAdded(Waited(ws[..n]), ws[n]);
    if i < n && (forall j :: i < j < |ws| ==> ws[j].hash != ws[i].hash) {
      assert ws[n].hash != ws[i].hash && ws[..n][i] == ws[i];
    }
  }

  lemma AmongAdded(ws: seq<Waiter>, w: Waiter)
    ensures forall h :: Among(ws, h) ==> Among(Added(ws, w), h)
    ensures Accepts(ws, w.hash) ==> Among(Added(ws, w), w.hash)
  {
    var r := Added(ws, w);
    forall h | Among(ws, h) ensures Among(r, h) {
      var i :| 0 <= i < |ws| && ws[i].hash == h;
      assert r[i].hash == h;
    }
    if Accepts(ws, w.hash) && !Among(ws, w.hash) {
      assert r[|ws|] == w;
    }
  }

  lemma {:induction false} OfConcat<T>(a: seq<Ticket<T>>, c: seq<Ticket<T>>, b: nat)
    ensures Of(a + c, b) == Of(a, b) + Of(c, b)
  {
    if c == [] {
      assert a + c == a;
    } else {
      OfConcat(a, c[..|c| - 1], b);
      assert (a + c)[..|a + c| - 1] == a + c[..|c| - 1];
    }
  }

  lemma {:induction false} OfTickets<T>(b: nat, items: seq<T>, c: nat)
    ensures Of(Tickets(b, items), c) == if c == b then items else []
  {
    if items != [] {
      OfTickets(b, items[..|items| - 1], c);
      assert Tickets(b, items)[..|items| - 1] == Tickets(b, items[..|items| - 1]);
    }
  }

  /** The datagrams of a batch: none until it is answered, and then the answers to its waiters. */
  ghost predicate SentFor(p: Batch, out: seq<Outbound>) {
    match p.phase
    case Answered(srcs, dst, v6Enabled) =>
      |srcs| == |p.waiters| && out == Answers(p.waiters, srcs, p.target, dst, v6Enabled)
    case _ => out == []
  }

  ghost predicate BatchInv(w: W, b: nat)
    requires b < |w.batches|
  {
    var p := w.batches[b];
    && (p.phase.Waiting? <==> p.target in w.pending && w.pending[p.target] == b)
    && (p.phase.Waiting? ==> p.armed || p.firing > 0)
    && 0 < |p.waiters| <= MAX_WAITERS && Distinct(p.waiters)
    && p.waiters == Waited(Of(w.accepted, b)) && AllAccepted(Of(w.accepted, b))
    && SentFor(p, Of(w.sent, b))
  }

  ghost predicate Inv(w: W) {
    && Sound(w)
    && (forall h :: h in w.pending ==> w.batches[w.pending[h]].target == h)
    && (forall b :: 0 <= b < |w.batches| ==> BatchInv(w, b))
    && (forall t :: t in w.accepted ==> t.batch < |w.batches|)
    && (forall t :: t in w.sent ==> t.batch < |w.batches|)
    && |w.callers| <= w.peak
    && |w.pending| + |w.callers| <= MAX_PENDING - 1 + w.peak
  }

  lemma OfSnoc<T>(ts: seq<Ticket<T>>, t: Ticket<T>, b: nat)
    ensures Of(ts + [t], b) == if t.batch == b then Of(ts, b) + [t.item] else Of(ts, b)
  {
    assert (ts + [t])[..|ts|] == ts;
  }

  lemma {:induction false} OfFresh<T>(ts: seq<Ticket<T>>, b: nat)
    requires forall t :: t in ts ==> t.batch != b
    ensures Of(ts, b) == []
  {
    if ts != [] { OfFresh(ts[..|ts| - 1], b); }
  }

  lemma Without<K, V>(m: map<K, V>, k: K)
    ensures |m - {k}| == if k in m then |m| - 1 else |m|
  {
    assert (m - {k}).Keys == m.Keys - {k};
    assert |m| == |m.Keys| && |m - {k}| == |(m - {k}).Keys|;
  }

  /** Joining, ending and answering touch one batch; the others keep what they had. */
  lemma OthersKeep(w: W, v: W, b: nat)
    requires Inv(w) && b < |w.batches| && |v.batches| == |w.batches|
    requires forall c :: 0 <= c < |w.batches| && c != b ==> v.batches[c] == w.batches[c]
    requires v.batches[b].target == w.batches[b].target
    requires v.pending == w.pending || v.pending == w.pending - {w.batches[b].target}
    requires v.pending != w.pending ==> w.batches[b].phase.Waiting?
    requires forall c :: 0 <= c < |w.batches| && c != b ==>
                           Of(v.accepted, c) == Of(w.accepted, c) && Of(v.sent, c) == Of(w.sent, c)
    requires BatchInv(v, b)
    ensures Sound(v) && (forall h :: h in v.pending ==> v.batches[v.pending[h]].target == h)
    ensures forall c :: 0 <= c < |v.batches| ==> BatchInv(v, c)
  {
    hide BatchInv;
    PhaseOf(w, b);
    forall c | 0 <= c < |v.batches| ensures BatchInv(v, c) {
      if c != b {
        PhaseOf(w, c);
        BatchKeeps(w, v, c);
      }
    }
  }

  lemma BatchKeeps(w: W, v: W, c: nat)
    requires c < |w.batches| && BatchInv(w, c) && c < |v.batches| && v.batches[c] == w.batches[c]
    requires var h := w.batches[c].target;
             (h in w.pending && w.pending[h] == c) == (h in v.pending && v.pending[h] == c)
    requires Of(v.accepted, c) == Of(w.accepted, c) && Of(v.sent, c) == Of(w.sent, c)
    ensures BatchInv(v, c)
  {
  }

  lemma JoinKeeps(w: W, b: nat, waiter: Waiter, families: Families)
    requires Inv(w) && b < |w.batches| && w.batches[b].phase.Waiting?
    ensures Inv(Join(w, b, waiter, families))
  {
    hide Added;
    var v, p := Join(w, b, waiter, families), w.batches[b];
    assert BatchInv(w, b);
    AddedWaits(p.waiters, waiter);
    var got := Of(w.accepted, b);
    forall c: nat ensures Of(w.accepted + [Ticket(b, waiter)], c) == Of(w.accepted, c) + (if b == c then [waiter] else []) {
      OfSnoc(w.accepted, Ticket(b, waiter), c);
    }
    assert (got + [waiter])[..|got|] == got;
    FullKeeps(p.waiters, waiter);
    OthersKeep(w, v, b);
  }

  lemma FullKeeps(ws: seq<Waiter>, w: Waiter)
    ensures !Accepts(ws, w.hash) ==> Added(ws, w) == ws
  {
  }

  lemma EndKeeps(w: W, b: nat, p: Batch)
    requires Inv(w) && b < |w.batches| && w.batches[b].phase.Waiting?
    requires p == w.batches[b].(armed := p.armed, firing := p.firing)
    ensures Inv(End(w, b, p)) && End(w, b, p).batches[b].phase.Ending?
  {
    hide Waited, AllAccepted;
    assert BatchInv(w, b);
    Without(w.pending, p.target);
    assert BatchInv(End(w, b, p), b);
    OthersKeep(w, End(w, b, p), b);
  }

  lemma OpenNew(w: W, c: Caller)
    requires Inv(w) && c.target !in w.pending
    ensures BatchInv(Open(w, c), |w.batches|)
  {
    hide Of, Waited, AllAccepted, BatchInv;
    var v, n := Open(w, c), |w.batches|;
    OfSnoc(w.accepted, Ticket(n, c.waiter), n);
    OfFresh(w.accepted, n);
    OfFresh(w.sent, n);
    WaitedOne(c.waiter);
    assert Of(v.accepted, n) == [c.waiter];
    IsBatchInv(v, n);
  }

  /** The definition, for where it is hidden. */
  lemma IsBatchInv(w: W, b: nat)
    requires b < |w.batches| && w.batches[b].target in w.pending && w.pending[w.batches[b].target] == b
    requires w.batches[b].phase.Waiting? && w.batches[b].armed && |w.batches[b].waiters| == 1
    requires w.batches[b].waiters == Waited(Of(w.accepted, b)) && AllAccepted(Of(w.accepted, b)) && Of(w.sent, b) == []
    ensures BatchInv(w, b)
  {
  }

  lemma OpenOld(w: W, c: Caller, b: nat)
    requires Inv(w) && c.target !in w.pending && b < |w.batches|
    ensures BatchInv(Open(w, c), b)
  {
    hide Of, Waited, AllAccepted, Distinct;
    OfSnoc(w.accepted, Ticket(|w.batches|, c.waiter), b);
    assert BatchInv(w, b);
  }

  /** A new batch for a target that has none. */
  lemma OpenKeeps(w: W, c: Caller)
    requires Inv(w) && c.target !in w.pending && |w.pending| + |w.callers| < MAX_PENDING - 1 + w.peak
    ensures Inv(Open(w, c))
  {
    hide BatchInv;
    OpenNew(w, c);
    forall b | 0 <= b < |w.batches| ensures BatchInv(Open(w, c), b) {
      OpenOld(w, c, b);
    }
  }

  lemma WaitedOne(w: Waiter)
    ensures Waited([w]) == [w] && AllAccepted([w])
  {
    assert [w][..0] == [];
  }

  lemma TimerKeeps(w: W, b: nat, p: Batch)
    requires Inv(w) && b < |w.batches|
    requires p == w.batches[b].(armed := p.armed, firing := p.firing, graced := p.graced)
    requires p.phase.Waiting? ==> p.armed || p.firing > 0
    ensures Inv(w.(batches := w.batches[b := p]))
  {
    hide Waited, AllAccepted;
    assert BatchInv(w, b);
    OthersKeep(w, w.(batches := w.batches[b := p]), b);
  }

  lemma AnswerKeeps(w: W, a: Action)
    requires Inv(w) && a.Answer? && Enabled(w, a)
    ensures Inv(Do(w, a))
  {
    hide Of, Waited, AllAccepted, Answers;
    var b, v := a.batch, Do(w, a);
    var p := w.batches[b];
    var out := Answers(p.waiters, a.srcs, p.target, a.dst, a.v6Enabled);
    assert BatchInv(w, b);
    forall c: nat ensures Of(v.sent, c) == Of(w.sent, c) + (if c == b then out else []) {
      OfConcat(w.sent, Tickets(b, out), c);
      OfTickets(b, out, c);
    }
    assert BatchInv(v, b);
    OthersKeep(w, v, b);
  }

  lemma CallersKeep(w: W, v: W)
    requires Inv(w) && v == w.(callers := v.callers, peak := v.peak)
    requires |v.callers| <= v.peak && |v.pending| + |v.callers| <= MAX_PENDING - 1 + v.peak
    ensures Inv(v)
  {
    hide Waited, AllAccepted;
    forall b | 0 <= b < |v.batches| ensures BatchInv(v, b) {
      assert BatchInv(w, b);
    }
  }

  lemma CompleteKeeps(w: W, target: Hash, v6: bool)
    requires Inv(w)
    ensures Inv(Do(w, Complete(target, v6)))
  {
    if target in w.pending {
      PendingWaits(w, target);
      hide Inv, End;
      var b := w.pending[target];
      var p := w.batches[b];
      if p.families.v6 && !v6 {
        TimerKeeps(w, b, p.(graced := true, armed := true));
      } else {
        EndKeeps(w, b, p.(armed := false));
      }
    }
  }

  /**
   A REGISTER of the target ends the wait in a family it is for. Its IPv4 alone ends a wait
   that is for IPv6 too only later: it starts the timer again, once.
   */
  lemma RegistrationEndsWait(w: W, target: Hash, v6: bool)
    requires Inv(w) && target in w.pending
    ensures var b := w.pending[target];
            var f := w.batches[b].families;
            var v := Do(w, Complete(target, v6));
            && v.batches[b].waiters == w.batches[b].waiters
            && (if if v6 then f.v6 else f.v4 && !f.v6 then target !in v.pending && v.batches[b].phase.Ending?
                else v.pending == w.pending && v.batches[b].phase.Waiting?)
            && (!v6 && f.v4 && f.v6 ==> v.batches[b].graced && (w.batches[b].graced || v.batches[b].armed))
  {
    PendingWaits(w, target);
    assert w.batches[w.pending[target]].target == target;
    hide Inv;
  }

  /** The SYNC2 waits for its target, in the place of an earlier one of its own, unless four others do. */
  ghost predicate WaitsNow(w: W, v: W, c: Caller) {
    && c.target in v.pending && v.pending[c.target] < |v.batches|
    && var p := v.batches[v.pending[c.target]];
       && p.target == c.target && p.phase.Waiting?
       && (c.families.v4 ==> p.families.v4) && (c.families.v6 ==> p.families.v6)
       && if c.waiter in p.waiters then v.accepted == w.accepted + [Ticket(v.pending[c.target], c.waiter)]
          else v.accepted == w.accepted && |p.waiters| == 4 && !Among(p.waiters, c.waiter.hash)
  }

  lemma JoinWaits(w: W, c: Caller)
    requires Inv(w) && c.target in w.pending
    ensures WaitsNow(w, Join(w, w.pending[c.target], c.waiter, c.families), c)
  {
    var b := w.pending[c.target];
    PendingWaits(w, c.target);
    assert BatchInv(w, b);
    AddedWaits(w.batches[b].waiters, c.waiter);
    FullKeeps(w.batches[b].waiters, c.waiter);
    hide Added, Waited, AllAccepted, Of;
  }

  /** A SYNC2 past its wake waits; one for a target already woken waits at once, another goes on below the cap. */
  lemma SecondWaits(w: W, id: nat)
    requires Inv(w) && id in w.callers
    ensures WaitsNow(w, Do(w, Second(id)), w.callers[id])
  {
    var c, v := w.callers[id], w.(callers := w.callers - {id});
    SecondKeeps(w, id);
    if c.target in w.pending { JoinWaits(v, c); }
    hide Inv, Join;
  }

  lemma FirstWaits(w: W, a: Action)
    requires Inv(w) && a.First? && Enabled(w, a)
    ensures var v, c := Do(w, a), Caller(a.target, a.waiter, a.families);
            if a.target in w.pending then WaitsNow(w, v, c)
            else v.pending == w.pending && v.callers == if |w.pending| < 4096 then w.callers[a.id := c] else w.callers
  {
    if a.target in w.pending { JoinWaits(w, Caller(a.target, a.waiter, a.families)); }
    hide Inv, Join, WaitsNow;
  }

  /** An expiry ends the wait it was armed for, and does nothing to a later one on the same target. */
  lemma ExpireKeeps(w: W, b: nat)
    requires Inv(w) && Enabled(w, Expire(b))
    ensures Inv(Do(w, Expire(b)))
    ensures w.batches[b].phase.Waiting? ==> Do(w, Expire(b)).batches[b].phase.Ending?
    ensures !w.batches[b].phase.Waiting? ==> Do(w, Expire(b)).pending == w.pending
  {
    var p := w.batches[b].(firing := w.batches[b].firing - 1);
    PhaseOf(w, b);
    if p.phase.Waiting? {
      EndKeeps(w, b, p);
    } else {
      TimerKeeps(w, b, p);
    }
  }

  lemma FirstKeeps(w: W, a: Action)
    requires Inv(w) && a.First? && Enabled(w, a)
    ensures Inv(Do(w, a))
  {
    hide BatchInv, Join, End, Open;
    if a.target in w.pending {
      PendingWaits(w, a.target);
      JoinKeeps(w, w.pending[a.target], a.waiter, a.families);
    } else if |w.pending| < MAX_PENDING {
      CallersKeep(w, Do(w, a));
    }
  }

  lemma SecondKeeps(w: W, id: nat)
    requires Inv(w) && id in w.callers
    ensures Inv(w.(callers := w.callers - {id})) && Inv(Do(w, Second(id)))
  {
    hide BatchInv, Join, End, Open;
    var c, v := w.callers[id], w.(callers := w.callers - {id});
    Without(w.callers, id);
    CallersKeep(w, v);
    if c.target in w.pending {
      PendingWaits(w, c.target);
      JoinKeeps(v, w.pending[c.target], c.waiter, c.families);
    } else {
      OpenKeeps(v, c);
    }
  }

  lemma DoKeeps(w: W, a: Action)
    requires Inv(w) && Enabled(w, a)
    ensures Inv(Do(w, a))
  {
    hide BatchInv, Join, End, Open;
    match a
    case First(_, _, _, _) => FirstKeeps(w, a);
    case WakeFailed(id) => SecondKeeps(w, id);
    case Second(id) => SecondKeeps(w, id);
    case Complete(target, v6) => CompleteKeeps(w, target, v6);
    case Fire(b) => TimerKeeps(w, b, w.batches[b].(armed := false, firing := w.batches[b].firing + 1));
    case Expire(b) => ExpireKeeps(w, b);
    case Answer(_, _, _, _) => AnswerKeeps(w, a);
  }

  lemma PhaseOf(w: W, b: nat)
    requires Inv(w) && b < |w.batches|
    ensures var p := w.batches[b]; p.phase.Waiting? <==> p.target in w.pending && w.pending[p.target] == b
  {
    hide Waited, AllAccepted, Of, Distinct, SentFor;
    assert BatchInv(w, b);
  }

  lemma PendingWaits(w: W, h: Hash)
    requires Inv(w) && h in w.pending
    ensures w.batches[w.pending[h]].phase.Waiting?
  {
    PhaseOf(w, w.pending[h]);
  }

  // ---------------------------------------------------------------- over whole runs

  ghost predicate Run(w: W, acts: seq<Action>, w': W)
    requires Inv(w)
    decreases acts
  {
    if acts == [] then w == w'
    else
      && Enabled(w, acts[0])
      && (DoKeeps(w, acts[0]); Run(Do(w, acts[0]), acts[1..], w'))
  }

  lemma {:induction false} RunKeeps(w: W, acts: seq<Action>, w': W)
    requires Inv(w) && Run(w, acts, w')
    ensures Inv(w')
    decreases acts
  {
    hide BatchInv, Do;
    if acts != [] {
      DoKeeps(w, acts[0]);
      RunKeeps(Do(w, acts[0]), acts[1..], w');
    }
  }

  lemma {:induction false} RunConcat(w: W, a: seq<Action>, v: W, b: seq<Action>, u: W)
    requires Inv(w) && Run(w, a, v) && Inv(v) && Run(v, b, u)
    ensures Run(w, a + b, u)
    decreases a
  {
    hide BatchInv, Do;
    if a == [] {
      assert a + b == b;
    } else {
      assert (a + b)[1..] == a[1..] + b;
      DoKeeps(w, a[0]);
      RunConcat(Do(w, a[0]), a[1..], v, b, u);
    }
  }

  ghost predicate Reachable(w: W) { exists acts :: Run(START, acts, w) }

  lemma {:induction false} InOf(ts: seq<Ticket<Waiter>>, i: nat) returns (j: nat)
    requires i < |ts|
    ensures j < |Of(ts, ts[i].batch)| && Of(ts, ts[i].batch)[j] == ts[i].item
    ensures (forall k :: i < k < |ts| && ts[k].batch == ts[i].batch ==> ts[k].item.hash != ts[i].item.hash) ==>
              forall k :: j < k < |Of(ts, ts[i].batch)| ==> Of(ts, ts[i].batch)[k].hash != ts[i].item.hash
  {
    var n := |ts| - 1;
    if i == n {
      j := |Of(ts[..n], ts[i].batch)|;
    } else {
      j := InOf(ts[..n], i);
      assert ts[..n][i] == ts[i];
    }
  }

  /**
   Whatever the interleaving, a SYNC2 that was told to wait is in its batch, by its
   requester's latest SYNC2 to it. The batch is pending with a timer or an expiry that
   will end it, or ended and about to be answered, with no datagram sent for it so far; or
   it is answered, and of the datagrams sent for it exactly one went to each requester.
   */
  lemma EveryWaiterAnswered(w: W, i: nat)
    requires Reachable(w) && i < |w.accepted|
    ensures var t := w.accepted[i];
            && t.batch < |w.batches|
            && var p := w.batches[t.batch];
               && Among(p.waiters, t.item.hash) && Distinct(p.waiters)
               && ((forall k :: i < k < |w.accepted| && w.accepted[k].batch == t.batch ==>
                                  w.accepted[k].item.hash != t.item.hash) ==> t.item in p.waiters)
               && (p.phase.Waiting? ==> p.target in w.pending && w.pending[p.target] == t.batch && (p.armed || p.firing > 0))
               && AnsweredOnce(p, Of(w.sent, t.batch))
  {
    hide Answers, Of;
    var acts :| Run(START, acts, w);
    RunKeeps(START, acts, w);
    assert w.accepted[i] in w.accepted;
    var b := w.accepted[i].batch;
    assert BatchInv(w, b);
    var j := InOf(w.accepted, i);
    WaitedHolds(Of(w.accepted, b), j);
    SentOnce(w.batches[b], Of(w.sent, b));
  }

  ghost predicate AnsweredOnce(p: Batch, out: seq<Outbound>) {
    match p.phase
    case Answered(srcs, dst, v6Enabled) => EachOnce(p.waiters, srcs, p.target, dst, v6Enabled, ToRequesters(out))
    case _ => out == []
  }

  lemma SentOnce(p: Batch, out: seq<Outbound>)
    requires SentFor(p, out)
    ensures AnsweredOnce(p, out)
  {
    match p.phase
    case Answered(srcs, dst, v6Enabled) => AnswersEachOnce(p.waiters, srcs, p.target, dst, v6Enabled);
    case _ =>
  }

  /** The waits in flight: at most four requesters each, and at most 4095 plus the most SYNC2s ever between their sections. */
  lemma WaitsBounded(w: W)
    requires Reachable(w)
    ensures |w.pending| <= MAX_PENDING - 1 + w.peak
    ensures forall h :: h in w.pending ==>
              w.pending[h] < |w.batches| && var p := w.batches[w.pending[h]]; p.target == h && 0 < |p.waiters| <= MAX_WAITERS
  {
    var acts :| Run(START, acts, w);
    RunKeeps(START, acts, w);
    forall h | h in w.pending ensures 0 < |w.batches[w.pending[h]].waiters| <= MAX_WAITERS {
      assert BatchInv(w, w.pending[h]);
    }
  }

  lemma AnsweredStays(w: W, a: Action, b: nat)
    requires Inv(w) && Enabled(w, a) && b < |w.batches| && w.batches[b].phase.Answered?
    ensures var w' := Do(w, a);
            && b < |w'.batches| && w'.batches[b].phase == w.batches[b].phase
            && w'.batches[b].target == w.batches[b].target && w'.batches[b].waiters == w.batches[b].waiters
  {
    hide BatchInv, Added, Accepts, Tickets, Answers;
    forall h | h in w.pending ensures w.pending[h] != b {
      PendingWaits(w, h);
    }
    assert Sound(w);
    hide Inv;
  }

  /** Once answered, a batch stays as it was, and nothing more is sent for it. */
  lemma AnsweredForever(w: W, a: Action, b: nat)
    requires Inv(w) && Enabled(w, a) && b < |w.batches| && w.batches[b].phase.Answered?
    ensures var w' := Do(w, a);
            && b < |w'.batches| && w'.batches[b].phase == w.batches[b].phase && w'.batches[b].waiters == w.batches[b].waiters
            && Of(w'.sent, b) == Of(w.sent, b)
  {
    hide Waited, AllAccepted, Of, Do;
    AnsweredStays(w, a, b);
    DoKeeps(w, a);
    assert BatchInv(w, b) && BatchInv(Do(w, a), b);
  }

  // ---------------------------------------------------------------- the cap of 4096 is not exact

  ghost predicate Fresh(w: W, h: Hash) { h !in w.pending && forall i :: i in w.callers ==> w.callers[i].target != h }

  /** Callers numbered from 0, each after its own target, none of which is pending. */
  ghost predicate Racing(w: W) { Inv(w) && Abreast(w.pending, w.callers) }

  ghost predicate Abreast(pending: map<Hash, nat>, callers: map<nat, Caller>) {
    && (forall i :: i in callers <==> 0 <= i < |callers|)
    && (forall i :: i in callers ==> callers[i].target !in pending)
    && (forall i, j :: i in callers && j in callers && callers[i].target == callers[j].target ==> i == j)
  }

  lemma AbreastMore(pending: map<Hash, nat>, callers: map<nat, Caller>, c: Caller)
    requires Abreast(pending, callers) && c.target !in pending && forall i :: i in callers ==> callers[i].target != c.target
    ensures Abreast(pending, callers[|callers| := c]) && |callers[|callers| := c]| == |callers| + 1
  {
    var more := callers[|callers| := c];
    assert |callers| !in callers && |more| == |callers| + 1;
  }

  lemma AbreastLess(pending: map<Hash, nat>, callers: map<nat, Caller>, id: nat, b: nat)
    requires Abreast(pending, callers) && id == |callers| - 1 && id in callers
    ensures Abreast(pending[callers[id].target := b], callers - {id}) && |callers - {id}| == |callers| - 1
    ensures |pending[callers[id].target := b]| == |pending| + 1
  {
    Without(callers, id);
    var less := callers - {id};
    assert forall i :: i in less <==> i in callers && i != id;
    assert forall i :: i in less ==> less[i] == callers[i];
  }

  lemma RunOne(w: W, a: Action)
    requires Inv(w) && Enabled(w, a)
    ensures Run(w, [a], Do(w, a))
  {
    hide BatchInv, Do;
    DoKeeps(w, a);
    assert [a][1..] == [];
  }

  /** One more SYNC2 passes the check of the cap. */
  lemma Enters(w: W, h: Hash, waiter: Waiter) returns (v: W)
    requires Racing(w) && Fresh(w, h) && waiter.hash != h && |w.pending| < MAX_PENDING
    ensures Run(w, [First(|w.callers|, h, waiter, Families(true, false))], v) && Racing(v)
    ensures v.pending == w.pending && |v.callers| == |w.callers| + 1 && v.peak == Max(w.peak, |v.callers|)
    ensures forall g :: Fresh(w, g) && g != h ==> Fresh(v, g)
  {
    hide BatchInv, Run;
    var n := |w.callers|;
    var a := First(n, h, waiter, Families(true, false));
    DoKeeps(w, a);
    RunOne(w, a);
    v := Do(w, a);
    assert v == w.(callers := w.callers[n := Caller(h, waiter, a.families)], peak := Max(w.peak, n + 1));
    hide *;
    EnteredRacing(w, v, Caller(h, waiter, a.families));
  }

  lemma EnteredRacing(w: W, v: W, c: Caller)
    requires Racing(w) && Fresh(w, c.target) && Inv(v)
    requires v == w.(callers := w.callers[|w.callers| := c], peak := v.peak)
    ensures Racing(v) && |v.callers| == |w.callers| + 1
    ensures forall g :: Fresh(w, g) && g != c.target ==> Fresh(v, g)
  {
    hide Inv, Abreast;
    AbreastMore(w.pending, w.callers, c);
  }

  /** The last of them opens its wait. */
  lemma Opens(w: W) returns (v: W)
    requires Racing(w) && |w.callers| > 0
    ensures Run(w, [Second(|w.callers| - 1)], v) && Racing(v)
    ensures |v.pending| == |w.pending| + 1 && |v.callers| == |w.callers| - 1 && v.peak == w.peak
    ensures forall g :: Fresh(w, g) ==> Fresh(v, g)
  {
    var id := |w.callers| - 1;
    assert Inv(w) && id in w.callers && w.callers[id].target !in w.pending by { hide Inv; }
    hide *;
    SecondOpens(w, id);
    v := Do(w, Second(id));
    OpenedRacing(w, v, |w.batches|);
  }

  lemma SecondOpens(w: W, id: nat)
    requires Inv(w) && id in w.callers && w.callers[id].target !in w.pending
    ensures Sound(w) && Enabled(w, Second(id)) && Run(w, [Second(id)], Do(w, Second(id)))
    ensures var v := Do(w, Second(id));
            && Inv(v) && v.pending == w.pending[w.callers[id].target := |w.batches|]
            && v.callers == w.callers - {id} && v.peak == w.peak
  {
    hide BatchInv, Run;
    DoKeeps(w, Second(id));
    RunOne(w, Second(id));
  }

  lemma OpenedRacing(w: W, v: W, b: nat)
    requires Racing(w) && |w.callers| > 0 && Inv(v)
    requires var id := |w.callers| - 1;
             id in w.callers && v.pending == w.pending[w.callers[id].target := b] && v.callers == w.callers - {id}
    ensures Racing(v) && |v.pending| == |w.pending| + 1 && |v.callers| == |w.callers| - 1
    ensures forall g :: Fresh(w, g) ==> Fresh(v, g)
  {
    hide Inv, Abreast;
    AbreastLess(w.pending, w.callers, |w.callers| - 1, b);
    OpenedFresh(w, v, b);
  }

  lemma OpenedFresh(w: W, v: W, b: nat)
    requires |w.callers| > 0
    requires var id := |w.callers| - 1;
             id in w.callers && v.pending == w.pending[w.callers[id].target := b] && v.callers == w.callers - {id}
    ensures forall g :: Fresh(w, g) ==> Fresh(v, g)
  {
  }

  lemma {:induction false} OpenAll(w: W) returns (acts: seq<Action>, v: W)
    requires Racing(w)
    ensures Run(w, acts, v) && Racing(v) && |v.callers| == 0
    ensures |v.pending| == |w.pending| + |w.callers| && v.peak == w.peak
    ensures forall g :: Fresh(w, g) ==> Fresh(v, g)
    decreases |w.callers|
  {
    hide Inv, Racing, Fresh, Do;
    assert Inv(w) by { RacingInv(w); }
    if |w.callers| == 0 {
      acts, v := [], w;
    } else {
      var u := Opens(w);
      var more;
      more, v := OpenAll(u);
      RacingInv(u);
      acts := [Second(|w.callers| - 1)] + more;
      RunConcat(w, [Second(|w.callers| - 1)], u, more, v);
    }
  }

  lemma RacingInv(w: W)
    requires Racing(w)
    ensures Inv(w)
  {
  }

  ghost predicate AllFresh(w: W, hs: seq<Hash>) {
    && (forall i :: 0 <= i < |hs| ==> Fresh(w, hs[i]))
    && (forall i, j :: 0 <= i < j < |hs| ==> hs[i] != hs[j])
  }

  lemma {:induction false} EnterAll(w: W, hs: seq<Hash>, waiter: Waiter) returns (acts: seq<Action>, v: W)
    requires Racing(w) && AllFresh(w, hs) && waiter.hash !in hs && |w.pending| < MAX_PENDING
    ensures Run(w, acts, v) && Racing(v)
    ensures v.pending == w.pending && |v.callers| == |w.callers| + |hs| && v.peak == Max(w.peak, |v.callers|)
    decreases hs
  {
    RacingInv(w);
    if hs == [] {
      acts, v := [], w;
    } else {
      hide Inv, Racing, Fresh, Do;
      var u := Enters(w, hs[0], waiter);
      var more;
      more, v := EnterAll(u, hs[1..], waiter);
      RacingInv(u);
      var a := First(|w.callers|, hs[0], waiter, Families(true, false));
      acts := [a] + more;
      RunConcat(w, [a], u, more, v);
    }
  }

  /** One SYNC2 through both sections. */
  lemma FillOne(u: W, h: Hash, waiter: Waiter) returns (acts: seq<Action>, w: W)
    requires Racing(u) && Inv(u) && |u.callers| == 0 && Fresh(u, h) && waiter.hash != h && |u.pending| < MAX_PENDING
    ensures Run(u, acts, w) && Racing(w) && |w.callers| == 0 && |w.pending| == |u.pending| + 1 && w.peak <= Max(u.peak, 1)
    ensures forall g :: Fresh(u, g) && g != h ==> Fresh(w, g)
  {
    hide Inv, Racing, Fresh, Do, Run;
    var v := Enters(u, h, waiter);
    var more;
    more, w := OpenAll(v);
    RacingInv(v);
    var a := First(0, h, waiter, Families(true, false));
    RunConcat(u, [a], v, more, w);
    acts := [a] + more;
  }

  lemma StartRacing()
    ensures Racing(START) && Run(START, [], START)
  {
  }

  /** Fills the waits one SYNC2 after the other. */
  lemma {:induction false} Fill(hs: seq<Hash>, waiter: Waiter, k: nat) returns (acts: seq<Action>, w: W)
    requires AllFresh(START, hs) && waiter.hash !in hs && k <= |hs| && k <= MAX_PENDING
    ensures Inv(START) && Run(START, acts, w) && Racing(w) && |w.callers| == 0 && |w.pending| == k && w.peak <= 1
    ensures AllFresh(w, hs[k..])
  {
    hide Inv, Racing, Fresh, Do, Run;
    StartRacing();
    RacingInv(START);
    if k == 0 {
      acts, w := [], START;
      assert hs[0..] == hs;
    } else {
      var before, u := Fill(hs, waiter, k - 1);
      RacingInv(u);
      assert hs[k - 1..][0] == hs[k - 1] && hs[k - 1..][1..] == hs[k..];
      var more;
      more, w := FillOne(u, hs[k - 1], waiter);
      RunConcat(START, before, u, more, w);
      acts := before + more;
    }
  }

  /** With n SYNC2s between their sections at once, 4095 + n targets can wait: the bound is exact, and 4096 is not. */
  lemma BoundReached(hs: seq<Hash>, waiter: Waiter, n: nat) returns (w: W)
    requires AllFresh(START, hs) && waiter.hash !in hs && n > 0 && |hs| == MAX_PENDING - 1 + n
    ensures Reachable(w) && w.peak == n && |w.pending| == MAX_PENDING - 1 + n
  {
    var k := MAX_PENDING - 1;
    var before, u := Fill(hs, waiter, k);
    hide Inv, Racing, Fresh, Do, Run;
    var enter, v := EnterAll(u, hs[k..], waiter);
    var open;
    open, w := OpenAll(v);
    RacingInv(u);
    RacingInv(v);
    RunConcat(u, enter, v, open, w);
    RunConcat(START, before, u, enter + open, w);
  }
}
