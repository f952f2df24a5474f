/**
 Packet framing of one TCP session: `Packet.Init` and `Packet.Append` (ed2k/packet.go),
 `processPacketData` and the login gate on a header (ed2k/server_runtime.go).

 The code works on whole reads, keeps a partial header in `headerBuf`, a partial payload
 in `recv`, and recurses on the bytes a packet leaves over. The reference here is a
 machine that takes one byte at a time and knows nothing of reads; the methods are
 proved to compute its fold.
 */
module Framing {
  import opened Bytes

  const PR_ED2K: Byte := 0xe3
  const PR_EMULE: Byte := 0xc5
  const PR_ZLIB: Byte := 0xd4
  const OP_LOGIN_REQUEST: Byte := 0x01
  const OP_DISCONNECT: Byte := 0x18
  const HEADER_SIZE: nat := 6
  const MAX_TCP_PACKET_SIZE: nat := 2_000_000
  const MAX_PRELOGIN_PACKET: nat := 0x1_0000

  predicate IsProtocol(b: Byte) {
    b == PR_ED2K || b == PR_EMULE || b == PR_ZLIB
  }

  datatype Status = New | Ready | WaitingData | CryptNegotiating

  datatype InPacket = InPacket(protocol: Byte, code: Byte, payload: seq<Byte>)

  /** Why a session was closed; the first reason is the one kept. */
  datatype Close =
    | UnknownProtocol | PreLoginTooLarge | NotLoggedIn | PacketTooLarge | BadHeader
    | CryptFailed(error: CryptError)
    | ByHandler

  datatype CryptError = EarlyData | WrongMagic | MethodNotSupported

  /**
   What framing calls into and does not define: the opcode handlers, which may change the
   session, write to it and close it, whether the session is logged in, and the message
   the login gate sends.
   */
  datatype Env<!App> = Env(
    handle: (App, InPacket) -> Reply<App>, logged: App -> bool, notLoggedIn: seq<Byte>)

  /** What a handler leaves behind: the session, the bytes it wrote, whether it closed. */
  datatype Reply<App> = Reply(app: App, wrote: seq<Byte>, close: bool)

  /**
   The stream state of a session between two bytes. `halted` says that what is left of
   the current read is dropped; `log` is every packet dispatched so far and `out` every
   byte written, before encryption.
   */
  datatype Stream<App> = Stream(
    status: Status, protocol: Byte, code: Byte, size: nat, recv: seq<Byte>,
    headerBuf: seq<Byte>, tripped: bool, closed: Option<Close>, halted: bool,
    app: App, log: seq<InPacket>, out: seq<Byte>)

  function Closing<App>(s: Stream<App>, reason: Close): Stream<App> {
    if s.closed.None? then s.(closed := Some(reason)) else s
  }

  function Halting<App>(s: Stream<App>, reason: Close): Stream<App> {
    Closing(s, reason).(halted := true)
  }

  /** A complete packet goes to its handler, which may close the session but not stop the read. */
  function Dispatched<App>(env: Env<App>, s: Stream<App>, payload: seq<Byte>): Stream<App> {
    var p := InPacket(s.protocol, s.code, payload);
    var r := env.handle(s.app, p);
    var s' := s.(status := New, recv := [], app := r.app, log := s.log + [p], out := s.out + r.wrote);
    if r.close then Closing(s', ByHandler) else s'
  }

  /** Before login only a login or a disconnect of plausible size may follow. */
  predicate GateOpen<App>(env: Env<App>, s: Stream<App>, h: seq<Byte>)
    requires |h| == HEADER_SIZE
  {
    || env.logged(s.app)
    || (Number(h[1..5]) <= MAX_PRELOGIN_PACKET + 1
        && (h[0] == PR_EMULE || h[5] == OP_LOGIN_REQUEST || h[5] == OP_DISCONNECT))
  }

  function Gated<App>(env: Env<App>, s: Stream<App>, h: seq<Byte>): Stream<App>
    requires |h| == HEADER_SIZE && !GateOpen(env, s, h)
  {
    if Number(h[1..5]) > MAX_PRELOGIN_PACKET + 1 then Halting(s, PreLoginTooLarge)
    else if s.tripped then s.(halted := true)
    else Halting(s.(tripped := true, out := s.out + env.notLoggedIn), NotLoggedIn)
  }

  /** What six header bytes do to a session that was waiting for a packet. */
  function HeaderRead<App>(env: Env<App>, s: Stream<App>, h: seq<Byte>): Stream<App>
    requires |h| == HEADER_SIZE
  {
    if !GateOpen(env, s, h) then Gated(env, s, h)
    else
      var size := Number(h[1..5]);
      if size == 0 then Halting(s.(protocol := h[0]), BadHeader)
      else if size - 1 > MAX_TCP_PACKET_SIZE then Halting(s.(protocol := h[0]), PacketTooLarge)
      else
        Announced(env, s.(protocol := h[0], size := size - 1, code := h[5], recv := []))
  }

  /** A packet is announced: an empty one is complete at once. */
  function Announced<App>(env: Env<App>, s: Stream<App>): Stream<App> {
    if s.size == 0 then Dispatched(env, s, []) else s.(status := WaitingData)
  }

  /** The reference: what one more byte does. */
  function Step<App>(env: Env<App>, s: Stream<App>, b: Byte): (r: Stream<App>)
    ensures s.out <= r.out
  {
    if s.halted then s
    else match s.status
      case New =>
        var h := s.headerBuf + [b];
        if |h| == 1 && !IsProtocol(b) then Halting(s, UnknownProtocol)
        else if |h| != HEADER_SIZE then s.(headerBuf := h)
        else HeaderRead(env, s.(headerBuf := []), h)
      case WaitingData =>
        var r := s.recv + [b];
        if |r| < s.size then s.(recv := r) else Dispatched(env, s, r)
      case _ => s
  }

  function Fold<App>(env: Env<App>, s: Stream<App>, data: seq<Byte>): (r: Stream<App>)
    ensures s.out <= r.out
    decreases data
  {
    if data == [] then s else Fold(env, Step(env, s, data[0]), data[1..])
  }

  /** What holds between two bytes of every session. */
  ghost predicate Consistent<App>(s: Stream<App>) {
    && (s.status.New? || s.status.WaitingData?)
    && (s.status.New? ==> s.recv == [] && |s.headerBuf| < HEADER_SIZE)
    && (s.status.WaitingData? ==> |s.recv| < s.size && s.headerBuf == [])
    && (s.headerBuf != [] ==> IsProtocol(s.headerBuf[0]))
    && (s.tripped || s.halted ==> s.closed.Some?)
    && (s.closed.Some? && !s.halted ==> s.closed.value.ByHandler?)
  }

  lemma HeaderReadConsistent<App>(env: Env<App>, s: Stream<App>, h: seq<Byte>)
    requires Consistent(s) && !s.halted && s.status.New? && s.headerBuf == [] && |h| == HEADER_SIZE
    ensures Consistent(HeaderRead(env, s, h))
    ensures s.closed.Some? ==> HeaderRead(env, s, h).closed == s.closed
  {
    hide Number;
  }

  lemma StepConsistent<App>(env: Env<App>, s: Stream<App>, b: Byte)
    requires Consistent(s)
    ensures Consistent(Step(env, s, b))
    ensures s.closed.Some? ==> Step(env, s, b).closed == s.closed
  {
    hide HeaderRead, GateOpen;
    if !s.halted && s.status.New? && |s.headerBuf| == HEADER_SIZE - 1 {
      HeaderReadConsistent(env, s.(headerBuf := []), s.headerBuf + [b]);
    }
  }

  /** A close reason, once set, is never replaced. */
  lemma StepKeepsClose<App>(env: Env<App>, s: Stream<App>, b: Byte)
    requires s.closed.Some?
    ensures Step(env, s, b).closed == s.closed
  {
    hide Number, IsProtocol;
  }

  lemma {:induction false} FoldConsistent<App>(env: Env<App>, s: Stream<App>, data: seq<Byte>)
    requires Consistent(s)
    ensures Consistent(Fold(env, s, data))
    ensures s.closed.Some? ==> Fold(env, s, data).closed == s.closed
    decreases data
  {
    if data != [] {
      StepConsistent(env, s, data[0]);
      FoldConsistent(env, Step(env, s, data[0]), data[1..]);
    }
  }

  lemma {:induction false} FoldConcat<App>(env: Env<App>, s: Stream<App>, a: seq<Byte>, b: seq<Byte>)
    ensures Fold(env, s, a + b) == Fold(env, Fold(env, s, a), b)
    decreases a
  {
    if a == [] {
      assert a + b == b;
    } else {
      assert (a + b)[1..] == a[1..] + b;
      FoldConcat(env, Step(env, s, a[0]), a[1..], b);
    }
  }

  lemma {:induction false} FoldHalted<App>(env: Env<App>, s: Stream<App>, data: seq<Byte>)
    requires s.halted
    ensures Fold(env, s, data) == s
    decreases data
  {
    if data != [] { FoldHalted(env, s, data[1..]); }
  }

  // ---------------------------------------------------------------- from bytes to chunks

  /** Bytes that do not complete a header only gather in headerBuf. */
  lemma {:induction false} FoldPartialHeader<App>(env: Env<App>, s: Stream<App>, data: seq<Byte>)
    requires s.status.New? && !s.halted && |s.headerBuf| + |data| < HEADER_SIZE
    requires s.headerBuf + data == [] || IsProtocol((s.headerBuf + data)[0])
    ensures Fold(env, s, data) == s.(headerBuf := s.headerBuf + data)
    decreases data
  {
    if data == [] {
      assert s.headerBuf + data == s.headerBuf;
    } else {
      var s' := s.(headerBuf := s.headerBuf + [data[0]]);
      assert Step(env, s, data[0]) == s';
      assert s'.headerBuf + data[1..] == s.headerBuf + data;
      FoldPartialHeader(env, s', data[1..]);
    }
  }

  /** A chunk that completes the header is that header's effect, then the rest of the chunk. */
  lemma FoldHeader<App>(env: Env<App>, s: Stream<App>, data: seq<Byte>)
    requires s.status.New? && !s.halted && |s.headerBuf| < HEADER_SIZE
    requires var all := s.headerBuf + data; |all| >= HEADER_SIZE && IsProtocol(all[0])
    ensures var all := s.headerBuf + data;
            Fold(env, s, data) == Fold(env, HeaderRead(env, s.(headerBuf := []), all[..HEADER_SIZE]), all[HEADER_SIZE..])
  {
    var all := s.headerBuf + data;
    var n := HEADER_SIZE - 1 - |s.headerBuf|;
    var part, rest := data[..n], data[n..];
    assert data == part + rest;
    FoldConcat(env, s, part, rest);
    FoldPartialHeader(env, s, part);
    assert s.headerBuf + part == all[..HEADER_SIZE - 1];
    assert all[..HEADER_SIZE - 1] + [rest[0]] == all[..HEADER_SIZE];
    assert rest[1..] == all[HEADER_SIZE..];
    var s' := s.(headerBuf := all[..HEADER_SIZE - 1]);
    assert s'.(headerBuf := []) == s.(headerBuf := []);
  }

  /** Bytes that do not fill the payload only gather in recv. */
  lemma {:induction false} FoldPartialPayload<App>(env: Env<App>, s: Stream<App>, data: seq<Byte>)
    requires s.status.WaitingData? && !s.halted && |s.recv| + |data| < s.size
    ensures Fold(env, s, data) == s.(recv := s.recv + data)
    decreases data
  {
    if data == [] {
      assert s.recv + data == s.recv;
    } else {
      var s' := s.(recv := s.recv + [data[0]]);
      assert Step(env, s, data[0]) == s';
      assert s'.recv + data[1..] == s.recv + data;
      FoldPartialPayload(env, s', data[1..]);
    }
  }

  /** A chunk that fills the payload dispatches the packet, then goes on with what is left. */
  lemma FoldPayload<App>(env: Env<App>, s: Stream<App>, data: seq<Byte>)
    requires s.status.WaitingData? && !s.halted && |s.recv| < s.size <= |s.recv| + |data|
    ensures var take := s.size - |s.recv|;
            Fold(env, s, data) == Fold(env, Dispatched(env, s, s.recv + data[..take]), data[take..])
  {
    var take := s.size - |s.recv|;
    var part, rest := data[..take - 1], data[take - 1..];
    assert data == part + rest;
    FoldConcat(env, s, part, rest);
    FoldPartialPayload(env, s, part);
    var s' := s.(recv := s.recv + part);
    var p := s.recv + data[..take];
    assert s'.recv + [rest[0]] == p && rest[1..] == data[take..];
    assert Dispatched(env, s', p) == Dispatched(env, s, p);
    assert Step(env, s', rest[0]) == Dispatched(env, s', p);
  }

  /** After an acceptable header, a chunk either leaves the payload incomplete or dispatches it. */
  lemma FoldBody<App>(env: Env<App>, s: Stream<App>, body: seq<Byte>)
    requires s.recv == [] && !s.halted
    ensures Fold(env, Announced(env, s), body)
            == if |body| < s.size then s.(status := WaitingData, recv := body)
               else Fold(env, Dispatched(env, s, body[..s.size]), body[s.size..])
  {
    hide Dispatched, Step;
    var t := s.(status := WaitingData);
    if s.size == 0 {
      assert body[..0] == [] && body[0..] == body;
    } else if |body| < s.size {
      FoldPartialPayload(env, t, body);
      assert [] + body == body;
    } else {
      hide Fold;
      FoldPayload(env, t, body);
      assert [] + body[..s.size] == body[..s.size];
      DispatchedAnew(env, s, body[..s.size]);
    }
  }

  /** Dispatching does not look at the status it replaces. */
  lemma DispatchedAnew<App>(env: Env<App>, s: Stream<App>, payload: seq<Byte>)
    ensures Dispatched(env, s.(status := WaitingData), payload) == Dispatched(env, s, payload)
  {
  }

  // ---------------------------------------------------------------- reads

  /** One read of the socket: nothing is read from a closed one. */
  function Read<App>(env: Env<App>, s: Stream<App>, chunk: seq<Byte>): Stream<App> {
    if s.closed.Some? then s else Fold(env, s, chunk)
  }

  function Reads<App>(env: Env<App>, s: Stream<App>, chunks: seq<seq<Byte>>): Stream<App>
    decreases chunks
  {
    if chunks == [] then s else Reads(env, Read(env, s, chunks[0]), chunks[1..])
  }

  function Flatten(chunks: seq<seq<Byte>>): seq<Byte> {
    if chunks == [] then [] else chunks[0] + Flatten(chunks[1..])
  }

  /** A handler closed the session while the read it was called from went on dispatching. */
  ghost predicate ClosedMidRead<App>(s: Stream<App>) {
    s.closed.Some? && !s.halted
  }

  /**
   One cut is invisible exactly when no handler in the first part closes the session and
   leaves the read running: a handler's close stops the next read, not the current one.
   */
  lemma OneCut<App>(env: Env<App>, s: Stream<App>, a: seq<Byte>)
    requires Consistent(s) && s.closed.None?
    ensures (forall b :: Read(env, Read(env, s, a), b) == Read(env, s, a + b))
            <==> !ClosedMidRead(Fold(env, s, a))
  {
    var t := Fold(env, s, a);
    FoldConsistent(env, s, a);
    if ClosedMidRead(t) {
      var b: seq<Byte> := [PR_ED2K];
      FoldConcat(env, s, a, b);
      assert Fold(env, t, b) == Step(env, t, PR_ED2K) by {
        assert b[1..] == [];
        assert Fold(env, Step(env, t, PR_ED2K), []) == Step(env, t, PR_ED2K);
      }
      MoreBytesShow(env, t);
      assert Read(env, Read(env, s, a), b) != Read(env, s, a + b);
    } else {
      forall b ensures Read(env, Read(env, s, a), b) == Read(env, s, a + b) {
        FoldConcat(env, s, a, b);
        if t.halted { FoldHalted(env, t, b); }
      }
    }
  }

  /** A protocol byte always changes a session whose read is still running. */
  lemma MoreBytesShow<App>(env: Env<App>, t: Stream<App>)
    requires Consistent(t) && !t.halted
    ensures Step(env, t, PR_ED2K) != t
  {
    var u := Step(env, t, PR_ED2K);
    if t.status.New? && |t.headerBuf| == HEADER_SIZE - 1 {
      assert u.headerBuf == [];
    } else if t.status.New? {
      assert |u.headerBuf| == |t.headerBuf| + 1;
    } else if |t.recv| + 1 < t.size {
      assert |u.recv| == |t.recv| + 1;
    } else {
      assert |u.log| == |t.log| + 1;
    }
  }

  /**
   Framing is split-invariant: unless a handler closes the session, every way of cutting
   a stream into reads gives the same packets, the same state and the same framing close.
   */
  lemma {:induction false} SplitInvariant<App>(env: Env<App>, s: Stream<App>, chunks: seq<seq<Byte>>)
    requires Consistent(s)
    requires Read(env, s, Flatten(chunks)).closed != Some(ByHandler)
    ensures Reads(env, s, chunks) == Read(env, s, Flatten(chunks))
    decreases chunks
  {
    if chunks != [] {
      var a, b := chunks[0], Flatten(chunks[1..]);
      var t := Read(env, s, a);
      FoldConsistent(env, s, a);
      FoldConcat(env, s, a, b);
      FoldConsistent(env, t, b);
      if t.halted { FoldHalted(env, t, b); }
      assert Read(env, t, b) == Read(env, s, a + b);
      SplitInvariant(env, t, chunks[1..]);
    }
  }

  // ---------------------------------------------------------------- frames

  /** A packet on the wire: protocol, size (opcode included), opcode, payload. */
  function Frame(p: InPacket): seq<Byte> {
    [p.protocol] + LittleEndian(|p.payload| + 1, 4) + [p.code] + p.payload
  }

  function Frames(ps: seq<InPacket>): seq<Byte> {
    if ps == [] then [] else Frame(ps[0]) + Frames(ps[1..])
  }

  /** What the handlers make of a list of packets, with no framing in between. */
  function Handled<App>(env: Env<App>, app: App, ps: seq<InPacket>): App
    decreases ps
  {
    if ps == [] then app else Handled(env, env.handle(app, ps[0]).app, ps[1..])
  }

  /** A packet the server takes: known protocol, allowed size, and past the gate before login. */
  predicate Taken<App>(env: Env<App>, app: App, p: InPacket) {
    && (p.protocol == 0xe3 || p.protocol == 0xc5 || p.protocol == 0xd4) && |p.payload| <= 2_000_000
    && (|| env.logged(app)
        || (|p.payload| <= 0x1_0000 && (p.protocol == 0xc5 || p.code == 0x01 || p.code == 0x18)))
  }

  /** Each packet of the list is taken when its turn comes. */
  ghost predicate Accepted<App>(env: Env<App>, app: App, ps: seq<InPacket>)
    decreases ps
  {
    ps != [] ==> Taken(env, app, ps[0]) && Accepted(env, env.handle(app, ps[0]).app, ps[1..])
  }

  /** Some handler of the list closes the session. */
  ghost predicate Closes<App>(env: Env<App>, app: App, ps: seq<InPacket>)
    decreases ps
  {
    ps != [] && (env.handle(app, ps[0]).close || Closes(env, env.handle(app, ps[0]).app, ps[1..]))
  }

  /** Framing is the inverse of writing frames: exactly the packets sent are dispatched, in order, a login first or not. */
  lemma {:induction false} FramesRoundTrip<App>(env: Env<App>, s: Stream<App>, ps: seq<InPacket>)
    requires Consistent(s) && s.status.New? && s.headerBuf == [] && !s.halted
    requires Accepted(env, s.app, ps)
    ensures var t := Fold(env, s, Frames(ps));
            && t.log == s.log + ps && t.app == Handled(env, s.app, ps)
            && t.closed == (if s.closed.None? && Closes(env, s.app, ps) then Some(ByHandler) else s.closed)
            && t.status.New? && t.headerBuf == [] && t.recv == [] && !t.halted
    decreases ps
  {
    if ps == [] {
      assert s.log + ps == s.log;
      return;
    }
    hide Frame, Fold, Taken, Consistent;
    OneFrame(env, s, ps[0]);
    var t := Fold(env, s, Frame(ps[0]));
    FoldConcat(env, s, Frame(ps[0]), Frames(ps[1..]));
    FramesRoundTrip(env, t, ps[1..]);
    assert s.log + ps == s.log + [ps[0]] + ps[1..];
  }

  lemma OneFrame<App>(env: Env<App>, s: Stream<App>, p: InPacket)
    requires Consistent(s) && s.status.New? && s.headerBuf == [] && !s.halted && Taken(env, s.app, p)
    ensures var t, r := Fold(env, s, Frame(p)), env.handle(s.app, p);
            && t.log == s.log + [p] && t.app == r.app
            && t.closed == (if s.closed.None? && r.close then Some(ByHandler) else s.closed)
            && Consistent(t) && t.status.New? && t.headerBuf == [] && t.recv == [] && !t.halted
  {
    FrameRoundTrip(env, s, p);
    FoldConsistent(env, s, Frame(p));
    assert InPacket(p.protocol, p.code, p.payload) == p;
    hide Frame, Fold, Taken;
  }

  /** A handler's close stops the next read only: a packet behind the one that closes is dispatched in the same read. */
  lemma CloseStillDispatches<App>(env: Env<App>, s: Stream<App>, first: InPacket, second: InPacket)
    requires Consistent(s) && s.status.New? && s.headerBuf == [] && s.closed.None? && !s.halted
    requires Accepted(env, s.app, [first, second]) && env.handle(s.app, first).close
    ensures Read(env, s, Frame(first) + Frame(second)).log == s.log + [first, second]
    ensures Reads(env, s, [Frame(first), Frame(second)]).log == s.log + [first]
  {
    var none: seq<InPacket> := [];
    var both, one := [first, second], [first];
    assert both[1..] == [second] && [second][1..] == none && one[1..] == none;
    assert Frames([second]) == Frame(second) + Frames(none) && Frames(one) == Frame(first) + Frames(none);
    assert Frames(both) == Frame(first) + Frame(second) && Frames(one) == Frame(first);
    assert Accepted(env, s.app, one);
    hide Frame, Taken;
    FramesRoundTrip(env, s, both);
    FramesRoundTrip(env, s, one);
    hide Fold;
    var chunks := [Frame(first), Frame(second)];
    assert chunks[1..] == [Frame(second)] && [Frame(second)][1..] == [];
    var t := Read(env, s, Frame(first));
    assert Reads(env, t, [Frame(second)]) == Reads(env, Read(env, t, Frame(second)), []);
  }

  lemma FrameHeader<App>(env: Env<App>, s: Stream<App>, p: InPacket)
    requires Taken(env, s.app, p)
    ensures var h := Frame(p)[..HEADER_SIZE];
            && IsProtocol(h[0]) && Frame(p)[HEADER_SIZE..] == p.payload
            && HeaderRead(env, s, h)
               == Announced(env, s.(protocol := p.protocol, size := |p.payload|, code := p.code, recv := []))
  {
    hide LittleEndian, Number, Announced;
    var f := Frame(p);
    var h := f[..HEADER_SIZE];
    Powers();
    NumberOfLittleEndian(|p.payload| + 1, 4);
    assert h[1..5] == LittleEndian(|p.payload| + 1, 4);
    assert h[0] == p.protocol && h[5] == p.code;
  }

  /** Exactly one packet is dispatched for one frame, with the frame's payload. */
  lemma FrameRoundTrip<App>(env: Env<App>, s: Stream<App>, p: InPacket)
    requires Consistent(s) && s.status.New? && s.headerBuf == [] && !s.halted
    requires Taken(env, s.app, p)
    ensures var s' := s.(protocol := p.protocol, size := |p.payload|, code := p.code, recv := []);
            Fold(env, s, Frame(p)) == Dispatched(env, s', p.payload)
  {
    FrameHeader(env, s, p);
    hide Fold, Frame, HeaderRead, Taken, Dispatched, Announced, Consistent, IsProtocol;
    var f := Frame(p);
    assert s.headerBuf + f == f && s.(headerBuf := []) == s;
    FoldHeader(env, s, f);
    var s' := s.(protocol := p.protocol, size := |p.payload|, code := p.code, recv := []);
    FoldBody(env, s', p.payload);
    var none := p.payload[|p.payload|..];
    assert p.payload[..|p.payload|] == p.payload && none == [];
    FoldNone(env, Dispatched(env, s', p.payload), none);
  }

  lemma FoldNone<App>(env: Env<App>, s: Stream<App>, none: seq<Byte>)
    requires none == []
    ensures Fold(env, s, none) == s
  {
  }
}
