/**
 What a session delivers for any bytes whatever: an account of the framing machine in
 terms of whole frames, independent of how it gathers them, and with the login gate
 (`preLoginHeaderAllowed`, ed2k/server_runtime.go) in the terms of the wire.
 */
module Delivery {
  import opened Bytes
  import opened Framing
  import opened Pipeline
  import opened Rc4

  // ---------------------------------------------------------------- every byte string

  /** What the handlers of a list of packets write. */
  function Wrote<App>(env: Env<App>, app: App, ps: seq<InPacket>): seq<Byte>
    decreases ps
  {
    if ps == [] then []
    else
      var r := env.handle(app, ps[0]);
      r.wrote + Wrote(env, r.app, ps[1..])
  }

  /**
   Why a session refuses the bytes behind its last packet: a byte that is no protocol, or
   a header with a size out of range or, before login, for anything but a small packet of
   the eMule protocol, a login or a disconnect.
   */
  function Refusal<App>(env: Env<App>, app: App, x: seq<Byte>): Option<Close> {
    if x == [] then None
    else if x[0] != 0xe3 && x[0] != 0xc5 && x[0] != 0xd4 then Some(UnknownProtocol)
    else if |x| < 6 then None
    else
      var n := Number(x[1..5]);
      if !env.logged(app) && n > 0x1_0001 then Some(PreLoginTooLarge)
      else if !env.logged(app) && x[0] != 0xc5 && x[5] != 0x01 && x[5] != 0x18 then Some(NotLoggedIn)
      else if n == 0 then Some(BadHeader)
      else if n > 2_000_001 then Some(PacketTooLarge)
      else None
  }

  /** The bytes received of a packet under way. */
  function Begun<App>(s: Stream<App>): seq<Byte> {
    if s.status.WaitingData? then [s.protocol] + LittleEndian(s.size + 1, 4) + [s.code] + s.recv else s.headerBuf
  }

  /** A session that goes on reading: what it has begun is a part of a packet it will take. */
  ghost predicate Open<App>(env: Env<App>, s: Stream<App>) {
    && Consistent(s) && !s.halted && (s.status.WaitingData? ==> s.size <= 2_000_000)
    && Refusal(env, s.app, Begun(s)).None?
  }

  lemma RefusalStays<App>(env: Env<App>, app: App, x: seq<Byte>, y: seq<Byte>)
    requires Refusal(env, app, x).Some?
    ensures Refusal(env, app, x + y) == Refusal(env, app, x)
  {
    hide Number;
    assert |x| >= 5 ==> (x + y)[1..5] == x[1..5];
  }

  /** The states one more byte can lead to: refused, a packet dispatched, or still under way. */
  ghost predicate Refused<App>(env: Env<App>, s: Stream<App>, t: Stream<App>, reason: Close) {
    && t.halted && t.log == s.log && t.app == s.app
    && t.closed == (if s.closed.Some? then s.closed else Some(reason))
    && t.tripped == (s.tripped || reason.NotLoggedIn?)
    && t.out == s.out + if reason.NotLoggedIn? && !s.tripped then env.notLoggedIn else []
  }

  ghost predicate Delivered<App>(env: Env<App>, s: Stream<App>, t: Stream<App>, p: InPacket) {
    var r := env.handle(s.app, p);
    && Taken(env, s.app, p) && t.log == s.log + [p] && t.app == r.app && t.out == s.out + r.wrote && t.tripped == s.tripped
    && t.closed == (if s.closed.None? && r.close then Some(ByHandler) else s.closed)
    && Open(env, t) && Begun(t) == []
  }

  ghost predicate Gathered<App>(env: Env<App>, s: Stream<App>, t: Stream<App>, x: seq<Byte>) {
    && t.log == s.log && t.app == s.app && t.out == s.out && t.tripped == s.tripped && t.closed == s.closed
    && Open(env, t) && Begun(t) == x
  }

  /** A refused header, and one that is not. */
  lemma HeaderRefused<App>(env: Env<App>, s: Stream<App>, x: seq<Byte>)
    requires Consistent(s) && s.status.New? && |x| == 6 && IsProtocol(x[0]) && Refusal(env, s.app, x).Some?
    ensures Refused(env, s, HeaderRead(env, s, x), Refusal(env, s.app, x).value)
  {
    hide Number, Announced;
  }

  lemma HeaderTaken<App>(env: Env<App>, s: Stream<App>, x: seq<Byte>)
    requires |x| == 6 && IsProtocol(x[0]) && Refusal(env, s.app, x).None?
    ensures var n := Number(x[1..5]);
            && 1 <= n <= 2_000_001
            && HeaderRead(env, s, x) == Announced(env, s.(protocol := x[0], size := n - 1, code := x[5], recv := []))
            && (!env.logged(s.app) ==> n <= 0x1_0001 && (x[0] == 0xc5 || x[5] == 0x01 || x[5] == 0x18))
  {
    hide Number, Announced;
  }

  /** The header of a packet and nothing behind it. */
  lemma HeaderSorts<App>(env: Env<App>, s: Stream<App>, x: seq<Byte>)
    requires Open(env, s) && s.status.New? && s.headerBuf == [] && |x| == 6 && IsProtocol(x[0])
    ensures var t := HeaderRead(env, s, x);
            match Refusal(env, s.app, x)
            case Some(reason) => Refused(env, s, t, reason)
            case None =>
              if Number(x[1..5]) == 1 then
                Delivered(env, s, t, InPacket(x[0], x[5], [])) && Frame(InPacket(x[0], x[5], [])) == x
              else Gathered(env, s, t, x)
  {
    var n := Number(x[1..5]);
    if Refusal(env, s.app, x).Some? {
      HeaderRefused(env, s, x);
      return;
    }
    HeaderTaken(env, s, x);
    LittleEndianOfNumber(x[1..5]);
    hide LittleEndian, Number, HeaderRead;
    assert x == [x[0]] + x[1..5] + [x[5]];
    var t := HeaderRead(env, s, x);
    if n == 1 {
      assert Frame(InPacket(x[0], x[5], [])) == x;
    } else {
      assert Begun(t) == x;
    }
  }

  lemma PayloadSorts<App>(env: Env<App>, s: Stream<App>, b: Byte)
    requires Open(env, s) && s.status.WaitingData?
    ensures var t, x := Step(env, s, b), Begun(s) + [b];
            && Refusal(env, s.app, x).None?
            && if |s.recv| + 1 == s.size then
                 var p := InPacket(s.protocol, s.code, s.recv + [b]);
                 Delivered(env, s, t, p) && Frame(p) == x
               else Gathered(env, s, t, x)
  {
    var x := Begun(s) + [b];
    PayloadGoesOn(env, s, b);
    Powers();
    NumberOfLittleEndian(s.size + 1, 4);
    hide LittleEndian, Number, Pow256, Refusal;
    assert Begun(s)[1..5] == LittleEndian(s.size + 1, 4);
    assert x == [s.protocol] + LittleEndian(s.size + 1, 4) + [s.code] + (s.recv + [b]);
    if |s.recv| + 1 == s.size {
      PayloadTaken(env, s, s.recv + [b]);
    }
  }

  /** No byte of the payload is refused. */
  lemma PayloadGoesOn<App>(env: Env<App>, s: Stream<App>, b: Byte)
    requires Open(env, s) && s.status.WaitingData?
    ensures Refusal(env, s.app, Begun(s) + [b]).None?
  {
    hide LittleEndian, Number;
    assert (Begun(s) + [b])[1..5] == Begun(s)[1..5];
  }

  lemma PayloadTaken<App>(env: Env<App>, s: Stream<App>, data: seq<Byte>)
    requires Open(env, s) && s.status.WaitingData? && |data| == s.size
    ensures Taken(env, s.app, InPacket(s.protocol, s.code, data))
  {
    Powers();
    NumberOfLittleEndian(s.size + 1, 4);
    hide LittleEndian, Number, Pow256;
    assert Begun(s)[1..5] == LittleEndian(s.size + 1, 4);
  }

  /** One more byte is refused, completes a packet the server takes, or is gathered. */
  ghost predicate StepSorted<App>(env: Env<App>, s: Stream<App>, b: Byte, t: Stream<App>) {
    var x := Begun(s) + [b];
    match Refusal(env, s.app, x)
    case Some(reason) => Refused(env, s, t, reason)
    case None => (exists p :: Delivered(env, s, t, p) && Frame(p) == x) || Gathered(env, s, t, x)
  }

  lemma StepSorts<App>(env: Env<App>, s: Stream<App>, b: Byte)
    requires Open(env, s)
    ensures StepSorted(env, s, b, Step(env, s, b))
  {
    hide HeaderRead, Frame, Delivered, Dispatched, Number;
    var x := Begun(s) + [b];
    if s.status.WaitingData? {
      PayloadSorts(env, s, b);
    } else if |x| == 6 {
      var s' := s.(headerBuf := []);
      assert Refusal(env, s.app, s.headerBuf).None?;
      HeaderSorts(env, s', x);
      SortedAs(env, s, s', x, HeaderRead(env, s', x));
    }
  }

  lemma SortedAs<App>(env: Env<App>, s: Stream<App>, s': Stream<App>, x: seq<Byte>, t: Stream<App>)
    requires s' == s.(headerBuf := [])
    ensures forall r :: Refused(env, s', t, r) ==> Refused(env, s, t, r)
    ensures forall p :: Delivered(env, s', t, p) ==> Delivered(env, s, t, p)
    ensures Gathered(env, s', t, x) ==> Gathered(env, s, t, x)
  {
    hide Open, Begun, Taken;
  }

  /**
   What framing does with any bytes at all, from a session that goes on reading: they are
   the frames of packets the server takes, each dispatched once and in order, and a rest
   that is either the packet under way or refused. Nothing else is dispatched, changes the
   session or is written, and the refusal before login is written at most once.
   */
  ghost predicate Explained<App>(
    env: Env<App>, s: Stream<App>, data: seq<Byte>, t: Stream<App>, ps: seq<InPacket>, rest: seq<Byte>)
  {
    var refusal := Refusal(env, t.app, rest);
    && Begun(s) + data == Frames(ps) + rest
    && Accepted(env, s.app, ps) && t.log == s.log + ps && t.app == Handled(env, s.app, ps)
    && (if refusal.Some? then t.halted else Open(env, t) && rest == Begun(t))
    && t.closed == (if s.closed.Some? then s.closed else if Closes(env, s.app, ps) then Some(ByHandler) else refusal)
    && t.tripped == (s.tripped || refusal == Some(NotLoggedIn))
    && t.out == s.out + Wrote(env, s.app, ps) + if refusal == Some(NotLoggedIn) && !s.tripped then env.notLoggedIn else []
  }

  lemma NothingExplained<App>(env: Env<App>, s: Stream<App>, t: Stream<App>, data: seq<Byte>, rest: seq<Byte>)
    requires Begun(s) + data == rest
    requires match Refusal(env, s.app, rest)
             case Some(reason) => Refused(env, s, t, reason)
             case None => t == s && Open(env, s) && data == []
    ensures Explained(env, s, data, t, [], rest)
  {
    hide Open, Begun, Refusal;
    assert Begun(s) + data == Frames([]) + rest;
    assert s.log + [] == s.log;
    assert data == [] ==> Begun(s) + data == Begun(s);
  }

  lemma GatheredFirst<App>(
    env: Env<App>, s: Stream<App>, t: Stream<App>, data: seq<Byte>, u: Stream<App>, ps: seq<InPacket>, rest: seq<Byte>)
    requires data != [] && Gathered(env, s, t, Begun(s) + [data[0]]) && Explained(env, t, data[1..], u, ps, rest)
    ensures Explained(env, s, data, u, ps, rest)
  {
    hide Open, Begun, Refusal, Accepted, Frames;
    assert Begun(s) + data == Begun(s) + [data[0]] + data[1..];
  }

  lemma {:induction false} FoldExplained<App>(env: Env<App>, s: Stream<App>, data: seq<Byte>)
    returns (ps: seq<InPacket>, rest: seq<Byte>)
    requires Open(env, s)
    ensures Explained(env, s, data, Fold(env, s, data), ps, rest)
    decreases data
  {
    if data == [] {
      ps, rest := [], Begun(s);
      NothingExplained(env, s, s, data, rest);
      return;
    }
    var t, x := Step(env, s, data[0]), Begun(s) + [data[0]];
    StepSorts(env, s, data[0]);
    assert Begun(s) + data == x + data[1..];
    hide Step, Frame, Open, Begun, Taken, Explained;
    if Refusal(env, s.app, x).Some? {
      ps, rest := [], x + data[1..];
      RefusalStays(env, s.app, x, data[1..]);
      FoldHalted(env, t, data[1..]);
      NothingExplained(env, s, t, data, rest);
    } else if Gathered(env, s, t, x) {
      ps, rest := FoldExplained(env, t, data[1..]);
      GatheredFirst(env, s, t, data, Fold(env, s, data), ps, rest);
    } else {
      var p :| Delivered(env, s, t, p) && Frame(p) == x;
      var qs;
      qs, rest := FoldExplained(env, t, data[1..]);
      ps := [p] + qs;
      DeliveredFirst(env, s, t, data, Fold(env, s, data), p, qs, rest);
    }
  }

  lemma DeliveredFirst<App>(
    env: Env<App>, s: Stream<App>, t: Stream<App>, data: seq<Byte>, u: Stream<App>, p: InPacket, qs: seq<InPacket>, rest: seq<Byte>)
    requires data != [] && Delivered(env, s, t, p) && Frame(p) == Begun(s) + [data[0]]
    requires Explained(env, t, data[1..], u, qs, rest)
    ensures Explained(env, s, data, u, [p] + qs, rest)
  {
    hide Frame, Open, Begun, Taken, Refusal;
    var ps, r := [p] + qs, env.handle(s.app, p);
    assert ps[0] == p && ps[1..] == qs;
    assert s.log + ps == s.log + [p] + qs;
    assert Begun(s) + data == Frame(p) + data[1..];
    assert Frames(ps) + rest == Frame(p) + (Frames(qs) + rest);
    assert s.out + r.wrote + Wrote(env, t.app, qs) == s.out + Wrote(env, s.app, ps);
  }

  // ---------------------------------------------------------------- the whole receive path

  /** The framing state of a session that may be in the middle of its handshake. */
  function Resumed<App>(s: Stream<App>): Stream<App> { if s.status.CryptNegotiating? then s.(status := New) else s }

  ghost predicate SameSoFar<App>(s: Stream<App>, t: Stream<App>) { t.log == s.log && t.app == s.app && t.out == s.out }

  /** Framing saw these bytes, unless the session failed on the way in. */
  ghost predicate Fed<App>(env: Env<App>, s: Stream<App>, plain: seq<Byte>, t: Stream<App>) {
    var f := Fold(env, Resumed(s), plain);
    Resumed(t) == f || (t.halted && SameSoFar(f, t))
  }

  lemma StepFed<App>(env: Env<App>, x: Exchange, p: Pipe<App>, b: Byte) returns (plain: seq<Byte>)
    requires x.Valid() && PipeConsistent(p) && !p.stream.halted
    ensures Fed(env, p.stream, plain, PipeStep(env, x, p, b).stream)
  {
    var s := p.stream;
    plain := [];
    FoldNone(env, Resumed(s), []);
    if p.crypt.None? || p.crypt.value.state.CsNone? {
      plain := [b];
    } else {
      var c := p.crypt.value;
      match c.state {
        case CsUnknown => if c.pending == [] && IsProtocol(b) { plain := [b]; }
        case CsNegotiating =>
        case CsEncrypting => plain := [Xor(b, Pad(Next(c.recvKey.value)))];
      }
    }
    if plain != [] {
      FoldOne(env, s, plain);
      PlainStepped(env, p, x, b, plain[0]);
    } else {
      hide Step, Next, Pad, Xor, Handshake, RequestNeed, Fold;
    }
  }

  lemma FoldOne<App>(env: Env<App>, s: Stream<App>, data: seq<Byte>)
    requires |data| == 1
    ensures Fold(env, s, data) == Step(env, s, data[0])
  {
    FoldNone(env, Step(env, s, data[0]), data[1..]);
  }

  lemma PlainStepped<App>(env: Env<App>, p: Pipe<App>, x: Exchange, b: Byte, plain: Byte)
    requires x.Valid() && PipeConsistent(p) && !p.stream.halted
    requires match p.crypt
             case None => plain == b
             case Some(c) =>
               match c.state
               case CsNone => plain == b
               case CsUnknown => plain == b && c.pending == [] && IsProtocol(b)
               case CsNegotiating => false
               case CsEncrypting => plain == Xor(b, Pad(Next(c.recvKey.value)))
    ensures PipeStep(env, x, p, b).stream == Step(env, p.stream, plain)
    ensures Resumed(p.stream) == p.stream && Resumed(Step(env, p.stream, plain)) == Step(env, p.stream, plain)
  {
    StepConsistent(env, p.stream, plain);
    hide Step, Next, Pad, Xor, Ciphered, Advance;
  }

  lemma {:induction false} FoldFed<App>(env: Env<App>, x: Exchange, p: Pipe<App>, data: seq<Byte>) returns (plain: seq<Byte>)
    requires x.Valid() && PipeConsistent(p) && !p.stream.halted
    ensures Fed(env, p.stream, plain, PipeFold(env, x, p, data).stream)
    decreases data
  {
    if data == [] {
      plain := [];
      FoldNone(env, Resumed(p.stream), plain);
      return;
    }
    var q := PipeStep(env, x, p, data[0]);
    plain := StepFed(env, x, p, data[0]);
    StepKeepsConsistent(env, x, p, data[0]);
    hide PipeStep, PipeConsistent;
    if q.stream.halted {
      PipeFoldHalted(env, x, q, data[1..]);
    } else {
      var more := FoldFed(env, x, q, data[1..]);
      FedThen(env, p.stream, plain, q.stream, more, PipeFold(env, x, p, data).stream);
      plain := plain + more;
    }
  }

  lemma FedThen<App>(env: Env<App>, s: Stream<App>, a: seq<Byte>, t: Stream<App>, b: seq<Byte>, u: Stream<App>)
    requires Fed(env, s, a, t) && !t.halted && Fed(env, t, b, u)
    ensures Fed(env, s, a + b, u)
  {
    hide Fold;
    FoldConcat(env, Resumed(s), a, b);
  }

  lemma {:induction false} ReadsFed<App>(env: Env<App>, x: Exchange, p: Pipe<App>, chunks: seq<seq<Byte>>) returns (plain: seq<Byte>)
    requires x.Valid() && PipeConsistent(p) && p.stream.closed.None?
    ensures Fed(env, p.stream, plain, PipeReads(env, x, p, chunks).stream)
    decreases chunks
  {
    plain := [];
    FoldNone(env, Resumed(p.stream), plain);
    if chunks == [] { return; }
    var q := PipeRead(env, x, p, chunks[0]);
    if !Straddles(p, chunks[0]) {
      plain := FoldFed(env, x, p, chunks[0]);
      FoldKeepsConsistent(env, x, p, chunks[0]);
    }
    hide PipeFold, Straddles;
    if q.stream.closed.Some? {
      ReadsOfClosed(env, x, q, chunks[1..]);
    } else {
      var more := ReadsFed(env, x, q, chunks[1..]);
      FedThen(env, p.stream, plain, q.stream, more, PipeReads(env, x, p, chunks).stream);
      plain := plain + more;
    }
  }

  lemma {:induction false} AcceptedAt<App>(env: Env<App>, app: App, ps: seq<InPacket>, i: nat)
    requires Accepted(env, app, ps) && i < |ps|
    ensures Taken(env, Handled(env, app, ps[..i]), ps[i])
    decreases ps
  {
    hide Taken;
    if i > 0 {
      AcceptedAt(env, env.handle(app, ps[0]).app, ps[1..], i - 1);
      assert ps[..i][0] == ps[0] && ps[..i][1..] == ps[1..][..i - 1];
    }
  }

  /**
   However its bytes arrive, plain or encrypted, in whatever reads and however they were
   chosen: a session dispatches nothing before its login but packets of the eMule protocol,
   logins and disconnects, none above 64 KiB, and never a packet above the limit.
   */
  lemma NothingElseBeforeLogin<App>(env: Env<App>, x: Exchange, p: Pipe<App>, chunks: seq<seq<Byte>>)
    returns (ps: seq<InPacket>)
    requires x.Valid() && PipeConsistent(p) && p.stream.closed.None? && Open(env, Resumed(p.stream))
    ensures var t := PipeReads(env, x, p, chunks).stream;
            && t.log == p.stream.log + ps && t.app == Handled(env, p.stream.app, ps)
            && forall i :: 0 <= i < |ps| ==>
                 && |ps[i].payload| <= 2_000_000
                 && (!env.logged(Handled(env, p.stream.app, ps[..i])) ==>
                       && |ps[i].payload| <= 0x1_0000
                       && (ps[i].protocol == 0xc5 || ps[i].code == 0x01 || ps[i].code == 0x18))
  {
    var plain := ReadsFed(env, x, p, chunks);
    var rest;
    ps, rest := FoldExplained(env, Resumed(p.stream), plain);
    hide Fold, Open, Accepted;
    forall i | 0 <= i < |ps| ensures Taken(env, Handled(env, p.stream.app, ps[..i]), ps[i]) {
      AcceptedAt(env, p.stream.app, ps, i);
    }
  }
}
