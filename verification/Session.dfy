/**
 The mutable objects of a TCP session and the methods that advance them, each proved
 against the byte-at-a-time reference: `Packet` (ed2k/packet.go), `TCPCrypt`
 (ed2k/tcpcrypt.go) and the receive and send paths of `tcpClient`
 (ed2k/server_runtime.go).
 */
module Session {
  import opened Bytes
  import opened Framing
  import opened Pipeline
  import opened Rc4

  datatype InitError = NoError | OutOfBounds | TooLarge | UnknownByte

  class Packet {
    var status: Status
    var protocol: Byte
    var size: nat
    var code: Byte
    var data: seq<Byte>
    var hasExcess: bool
    var excess: seq<Byte>
    var recv: seq<Byte>

    constructor ()
      ensures status == New && protocol == 0 && size == 0 && code == 0
      ensures data == [] && !hasExcess && excess == [] && recv == []
    {
      status, protocol, size, code := New, 0, 0, 0;
      data, hasExcess, excess, recv := [], false, [], [];
    }

    /** Adds received bytes to the payload; what lies past it is kept as excess. */
    method Append(chunk: seq<Byte>)
      requires |recv| <= size
      modifies this
      ensures protocol == old(protocol) && size == old(size) && code == old(code)
      ensures var take := size - |old(recv)|;
              if |chunk| < take then
                status == WaitingData && recv == old(recv) + chunk && !hasExcess && data == old(data)
              else
                && status == Ready && recv == [] && data == old(recv) + chunk[..take]
                && hasExcess == (take < |chunk|) && (hasExcess ==> excess == chunk[take..])
    {
      var take := if size - |recv| <= |chunk| then size - |recv| else |chunk|;
      recv := recv + chunk[..take];
      if |recv| < size {
        assert chunk[..take] == chunk;
        status, hasExcess := WaitingData, false;
        return;
      }
      data := recv;
      recv := [];
      status := Ready;
      hasExcess := take < |chunk|;
      if hasExcess {
        excess := chunk[take..];
      }
    }

    /** Parses a header and takes what payload came with it. */
    method Init(buffer: seq<Byte>) returns (err: InitError)
      modifies this
      ensures |buffer| < HEADER_SIZE ==> err != NoError
      ensures |buffer| >= HEADER_SIZE ==>
                var n := Number(buffer[1..5]);
                && protocol == buffer[0]
                && err == (if !IsProtocol(buffer[0]) then UnknownByte else if n == 0 then OutOfBounds
                           else if n - 1 > MAX_TCP_PACKET_SIZE then TooLarge else NoError)
                && (err == NoError ==>
                      && size == n - 1 && code == buffer[5]
                      && var body := buffer[HEADER_SIZE..];
                      if |body| < size then
                        status == WaitingData && recv == body && !hasExcess
                      else
                        && status == Ready && recv == [] && data == body[..size]
                        && hasExcess == (size < |body|) && (hasExcess ==> excess == body[size..]))
                && (err != NoError ==> !hasExcess && unchanged(this`status, this`size, this`code, this`recv))
    {
      hasExcess := false;
      if |buffer| == 0 { return OutOfBounds; }
      protocol := buffer[0];
      if !IsProtocol(protocol) { return UnknownByte; }
      if |buffer| < 5 { return OutOfBounds; }
      var n := Number(buffer[1..5]);
      if n == 0 { return OutOfBounds; }
      if n - 1 > MAX_TCP_PACKET_SIZE { return TooLarge; }
      size := n - 1;
      if |buffer| < HEADER_SIZE { return OutOfBounds; }
      code := buffer[5];
      recv, data := [], [];
      var body := buffer[HEADER_SIZE..];
      Append(body);
      assert [] + body == body && (|body| >= size ==> [] + body[..size] == body[..size]);
      return NoError;
    }
  }

  class TCPCrypt {
    const packet: Packet
    var state: CsState
    var pending: seq<Byte>
    var sendKey: RC4Key?
    var recvKey: RC4Key?

    ghost predicate Valid()
      reads this
    {
      && (sendKey != null ==> sendKey.Valid())
      && (recvKey != null ==> recvKey.Valid())
      && (sendKey != null && recvKey != null ==> sendKey != recvKey && sendKey.state != recvKey.state)
    }

    ghost function Owned(): set<object>
      reads this
    {
      {this}
      + (if sendKey == null then {} else {sendKey, sendKey.state})
      + (if recvKey == null then {} else {recvKey, recvKey.state})
    }

    ghost function View(): Crypt
      requires Valid()
      reads this, Owned()
    {
      Crypt(state, pending,
            if sendKey == null then None else Some(sendKey.View()),
            if recvKey == null then None else Some(recvKey.View()))
    }

    /** NewTCPCrypt for a listener that supports obfuscation. */
    constructor (packet: Packet)
      ensures Valid() && this.packet == packet && Owned() == {this}
      ensures View() == Crypt(CsUnknown, [], None, None)
    {
      this.packet := packet;
      state, pending := CsUnknown, [];
      sendKey, recvKey := null, null;
    }

    method SetState(s: CsState)
      requires Valid()
      modifies this`state
      ensures Valid() && View() == old(View()).(state := s)
    {
      state := s;
    }

    /** Answers the client's public key a: both RC4 keys, and the sync block under the sending one. */
    method Negotiate(x: Exchange, a: seq<Byte>) returns (answer: seq<Byte>)
      requires Valid() && x.Valid()
      modifies this`sendKey, this`recvKey
      ensures Valid() && fresh(Owned() - {this}) && state == old(state) && pending == old(pending)
      ensures sendKey != null && recvKey != null
      ensures var send := x.SendKey(a);
              && sendKey.View() == Advance(send, |x.SyncBlock()|)
              && recvKey.View() == x.RecvKey(a)
              && answer == x.public + Ciphered(send, x.SyncBlock())
    {
      hide Advance, Ciphered;
      var secret := x.shared(a);
      var send := new RC4Key.Create(x.md5(secret + [MAGIC_SERVER]), true);
      var recv := new RC4Key.Create(x.md5(secret + [MAGIC_REQUESTER]), true);
      var block := x.SyncBlock();
      var enc := send.Crypt(Some(block), |block|);
      sendKey, recvKey := send, recv;
      answer := x.public + enc;
    }

    /** ProcessData in CsUnknown: gathers the client's key exchange; `answer` is the server's, to be written raw. */
    method ProcessRequest(x: Exchange, data: seq<Byte>) returns (answer: seq<Byte>, err: Option<CryptError>)
      requires Valid() && x.Valid() && state.CsUnknown?
      modifies this, packet`status
      ensures Valid() && fresh(Owned() - old(Owned()))
      ensures var p := old(pending) + data;
              if |p| < RequestNeed(p) then
                && View() == old(View()).(pending := p) && answer == [] && err.None?
                && packet.status == old(packet.status)
              else if |p| > RequestNeed(p) then err == Some(EarlyData) && packet.status == old(packet.status)
              else
                var send := x.SendKey(p[1..1 + PRIME_SIZE]);
                var recv := x.RecvKey(p[1..1 + PRIME_SIZE]);
                && View() == Crypt(CsNegotiating, [], Some(Advance(send, |x.SyncBlock()|)), Some(recv))
                && answer == x.public + Ciphered(send, x.SyncBlock())
                && packet.status == CryptNegotiating && err.None?
    {
      hide Advance, Ciphered;
      pending := pending + data;
      var need := REQUEST_FIXED;
      if |pending| >= need {
        need := need + pending[need - 1];
      }
      if |pending| < need {
        return [], None;
      }
      if |pending| > need {
        return [], Some(EarlyData);
      }
      answer := Negotiate(x, pending[1..1 + PRIME_SIZE]);
      err := None;
      pending := [];
      packet.status := CryptNegotiating;
      state := CsNegotiating;
    }

    /** ProcessData in CsNegotiating: decrypts and gathers the client's reply; `rest` is what followed it. */
    method ProcessReply(data: seq<Byte>) returns (rest: seq<Byte>, err: Option<CryptError>)
      requires Valid() && state.CsNegotiating? && recvKey != null
      modifies this`state, this`pending, packet`status, recvKey, recvKey.state
      ensures Valid()
      ensures var c := old(View());
              var k := c.recvKey.value;
              var p := c.pending + Ciphered(k, data);
              match Handshake(p)
              case Wait =>
                && View() == c.(pending := p, recvKey := Some(Advance(k, |data|)))
                && rest == [] && err.None? && packet.status == old(packet.status)
              case Bad(e) => err == Some(e) && packet.status == old(packet.status)
              case Done(r) =>
                && View() == c.(state := CsEncrypting, pending := [], recvKey := Some(Advance(k, |data|)))
                && rest == r && err.None? && packet.status == New
    {
      var plain := recvKey.Crypt(Some(data), |data|);
      pending := pending + plain;
      match Handshake(pending)
      case Wait => return [], None;
      case Bad(e) => return [], Some(e);
      case Done(r) =>
        pending := [];
        state := CsEncrypting;
        packet.status := New;
        return r, None;
    }

    /** Decrypts once the stream is encrypting, else hands the bytes back. */
    method Decrypt(data: seq<Byte>) returns (plain: seq<Byte>)
      requires Valid() && (state.CsEncrypting? ==> recvKey != null)
      modifies if recvKey == null then {} else {recvKey, recvKey.state}
      ensures Valid()
      ensures if state.CsEncrypting? then
                var k := old(View()).recvKey.value;
                && plain == Ciphered(k, data)
                && View() == old(View()).(recvKey := Some(Advance(k, |data|)))
              else plain == data && View() == old(View())
    {
      if state.CsEncrypting? {
        plain := recvKey.Crypt(Some(data), |data|);
      } else {
        plain := data;
      }
    }
  }

  /** The framing half of tcpClient: everything between decrypted bytes and opcode handlers. */
  class Framer<App> {
    const env: Env<App>
    const packet: Packet
    var headerBuf: seq<Byte>
    var loginGateTripped: bool
    var closeReason: Option<Close>
    /** What the handlers read and change: the rest of the session and the server. */
    var app: App
    /** Every byte the handlers wrote, in order. */
    var outbox: seq<Byte>

    ghost var halted: bool
    ghost var log: seq<InPacket>

    ghost function View(): Stream<App>
      reads this, packet
    {
      Stream(packet.status, packet.protocol, packet.code, packet.size, packet.recv,
             headerBuf, loginGateTripped, closeReason, halted, app, log, outbox)
    }

    constructor (env: Env<App>, app: App)
      ensures this.env == env && fresh(packet) && !packet.hasExcess
      ensures View() == Stream(New, 0, 0, 0, [], [], false, None, false, app, [], [])
    {
      packet := new Packet();
      this.env, this.app := env, app;
      headerBuf, loginGateTripped, closeReason, outbox := [], false, None, [];
      halted, log := false, [];
    }

    /** closeWithReason: the first reason is kept, the socket closed. */
    method CloseWith(reason: Close)
      modifies this`closeReason
      ensures closeReason == if old(closeReason).None? then Some(reason) else old(closeReason)
    {
      if closeReason.None? {
        closeReason := Some(reason);
      }
    }

    /** preLoginHeaderAllowed with requireLogin. */
    method PreLoginHeaderAllowed(header: seq<Byte>) returns (ok: bool)
      requires |header| == HEADER_SIZE && !halted
      modifies this`closeReason, this`loginGateTripped, this`halted, this`outbox
      ensures ok == GateOpen(env, old(View()), header)
      ensures View() == if ok then old(View()) else Gated(env, old(View()), header)
      ensures ok <==> || env.logged(app)
                      || (Number(header[1..5]) <= 0x1_0001 && (header[0] == 0xc5 || header[5] == 0x01 || header[5] == 0x18))
      ensures !ok ==> halted && (closeReason.Some? || (old(loginGateTripped) && old(closeReason).None?))
      ensures outbox == old(outbox) +
                if !ok && Number(header[1..5]) <= 0x1_0001 && !old(loginGateTripped) then env.notLoggedIn else []
    {
      if env.logged(app) { return true; }
      if Number(header[1..5]) > MAX_PRELOGIN_PACKET + 1 {
        CloseWith(PreLoginTooLarge);
        halted := true;
        return false;
      }
      if header[0] == PR_EMULE || header[5] == OP_LOGIN_REQUEST || header[5] == OP_DISCONNECT { return true; }
      halted := true;
      if loginGateTripped { return false; }
      loginGateTripped := true;
      outbox := outbox + env.notLoggedIn;
      CloseWith(NotLoggedIn);
      return false;
    }

    /** handlePacket and the release of the packet after it. */
    method HandlePacket()
      requires packet.recv == []
      modifies this`closeReason, this`app, this`log, this`outbox, packet`status, packet`data
      ensures View() == Dispatched(env, old(View()), old(packet.data))
    {
      var p := InPacket(packet.protocol, packet.code, packet.data);
      var r := env.handle(app, p);
      app, log, outbox := r.app, log + [p], outbox + r.wrote;
      if r.close {
        CloseWith(ByHandler);
      }
      packet.status, packet.data := New, [];
    }

    /** A complete packet is in `packet`; dispatching it and framing `rest` is what is left to do. */
    ghost predicate Completed(s: Stream<App>, rest: seq<Byte>)
      reads this, packet
    {
      && packet.recv == [] && headerBuf == [] && !halted
      && packet.hasExcess == (rest != []) && (packet.hasExcess ==> packet.excess == rest)
      && Consistent(Dispatched(env, View(), packet.data))
      && s == Fold(env, Dispatched(env, View(), packet.data), rest)
    }

    /** The header checks: the login gate, then Packet.Init, which also takes the payload that came along. */
    method ReadHeader(data: seq<Byte>) returns (ok: bool, ghost t: Stream<App>)
      requires !halted && |data| >= HEADER_SIZE && IsProtocol(data[0]) && !packet.hasExcess
      modifies this`loginGateTripped, this`closeReason, this`halted, this`outbox, packet
      ensures var s := HeaderRead(env, old(View()), data[..HEADER_SIZE]);
              if !ok then View() == s && halted && !packet.hasExcess
              else
                var body := data[HEADER_SIZE..];
                && s == Announced(env, t) && t == old(View()).(protocol := t.protocol, size := t.size, code := t.code, recv := [])
                && View() == t.(status := packet.status, recv := packet.recv)
                && if |body| < t.size then packet.status == WaitingData && packet.recv == body && !packet.hasExcess
                   else
                     && packet.status == Ready && packet.recv == [] && packet.data == body[..t.size]
                     && packet.hasExcess == (t.size < |body|) && (packet.hasExcess ==> packet.excess == body[t.size..])
    {
      t := View();
      var h := data[..HEADER_SIZE];
      ok := PreLoginHeaderAllowed(h);
      if !ok { return; }
      assert data[1..5] == h[1..5];
      ghost var n := Number(h[1..5]);
      var err := packet.Init(data);
      if err != NoError {
        CloseWith(if err == TooLarge then PacketTooLarge else BadHeader);
        halted, ok := true, false;
        return;
      }
      t := t.(protocol := h[0], size := n - 1, code := h[5], recv := []);
    }

    /** A read with a whole header in hand, behind no gathered bytes. */
    method GatherHeader(data: seq<Byte>) returns (ready: bool, ghost rest: seq<Byte>)
      requires !halted && Consistent(View()) && !packet.hasExcess
      requires packet.status.New? && headerBuf == [] && |data| >= HEADER_SIZE && IsProtocol(data[0])
      modifies this`loginGateTripped, this`closeReason, this`halted, this`outbox, packet
      ensures var s := Fold(env, HeaderRead(env, old(View()), data[..HEADER_SIZE]), data[HEADER_SIZE..]);
              if ready then Completed(s, rest) && |rest| < |data| else !packet.hasExcess && View() == s
    {
      ghost var body := data[HEADER_SIZE..];
      var ok, t := ReadHeader(data);
      if !ok {
        FoldHalted(env, View(), body);
        return false, [];
      }
      FoldBody(env, t, body);
      ready := packet.status.Ready?;
      rest := if ready then body[packet.size..] else [];
      assert Dispatched(env, View(), packet.data) == Dispatched(env, t, packet.data);
    }

    /** More payload of a packet under way. */
    method GatherPayload(input: seq<Byte>) returns (ready: bool, ghost rest: seq<Byte>)
      requires !halted && Consistent(View()) && !packet.hasExcess && packet.status.WaitingData?
      modifies packet
      ensures var s := Fold(env, old(View()), input);
              if ready then Completed(s, rest) && |rest| < |headerBuf| + |input|
              else !packet.hasExcess && View() == s
    {
      hide Number;
      ghost var s0 := View();
      packet.Append(input);
      ready := packet.status.Ready?;
      if ready {
        FoldPayload(env, s0, input);
        rest := input[s0.size - |s0.recv|..];
        assert Dispatched(env, View(), packet.data) == Dispatched(env, s0, packet.data);
      } else {
        FoldPartialPayload(env, s0, input);
        rest := [];
      }
    }

    /** The first packet of a read: gathers it, and says whether it is complete. */
    method Gather(input: seq<Byte>) returns (ready: bool, ghost rest: seq<Byte>)
      requires !halted && Consistent(View()) && !packet.hasExcess
      modifies this`headerBuf, this`loginGateTripped, this`closeReason, this`halted, this`outbox, packet
      ensures var s := Fold(env, old(View()), input);
              if ready then Completed(s, rest) && |rest| < |old(headerBuf)| + |input|
              else !packet.hasExcess && View() == s
    {
      hide Dispatched, Number, HeaderRead;
      ghost var s0 := View();
      if packet.status.WaitingData? {
        ready, rest := GatherPayload(input);
        return;
      }
      var data := headerBuf + input;
      if |data| == 0 { return false, []; }
      if !IsProtocol(data[0]) {
        assert s0.headerBuf == [] && data == input;
        CloseWith(UnknownProtocol);
        halted := true;
        FoldHalted(env, Step(env, s0, input[0]), input[1..]);
        return false, [];
      }
      if |data| < HEADER_SIZE {
        headerBuf := data;
        FoldPartialHeader(env, s0, input);
        return false, [];
      }
      headerBuf := [];
      FoldHeader(env, s0, input);
      ready, rest := GatherHeader(data);
    }

    /**
     processPacketData: frames and dispatches everything in `input`, however it was cut
     out of the stream. The recursion on the excess ends because each packet consumes its
     header or at least one payload byte.
     */
    method ProcessPacketData(input: seq<Byte>)
      requires !halted && Consistent(View()) && !packet.hasExcess
      modifies this, packet
      ensures !packet.hasExcess && View() == Fold(env, old(View()), input)
      decreases |headerBuf| + |input|
    {
      var ready, rest := Gather(input);
      if !ready {
        return;
      }
      HandlePacket();
      assert !halted && headerBuf == [];
      if packet.hasExcess && |packet.excess| > 0 {
        var excess := packet.excess;
        packet.hasExcess, packet.excess := false, [];
        ProcessPacketData(excess);
      }
    }
  }

  /** tcpClient as the reader of its socket sees it. */
  class TcpSession<App> {
    const exchange: Exchange
    const framer: Framer<App>
    const crypt: TCPCrypt?
    /** Every byte written to the socket, and how much of the framer's outbox that covers. */
    var wire: seq<Byte>
    var flushed: nat

    ghost function Owned(): set<object>
      reads this, crypt
    {
      {this, framer, framer.packet} + if crypt == null then {} else crypt.Owned()
    }

    ghost predicate Sound()
      reads this, crypt
    {
      exchange.Valid() && (crypt != null ==> crypt.Valid() && crypt.packet == framer.packet)
    }

    ghost function View(): Pipe<App>
      requires Sound()
      reads this, framer, framer.packet, crypt, Owned()
    {
      Pipe(if crypt == null then None else Some(crypt.View()), framer.View(), wire)
    }

    /** Between two reads. */
    ghost predicate Valid()
      reads this, framer, framer.packet, crypt, Owned()
    {
      && Sound() && !framer.packet.hasExcess && flushed == |framer.outbox|
      && PipeConsistent(Quiet(View()))
    }

    /** newTCPClient; `obfuscated` says which listener accepted the socket. */
    constructor (env: Env<App>, exchange: Exchange, app: App, obfuscated: bool)
      requires exchange.Valid()
      ensures Valid() && framer.env == env && this.exchange == exchange
      ensures framer.closeReason.None? && wire == []
      ensures View() == Built(obfuscated, app) && fresh(Owned())
    {
      var f := new Framer(env, app);
      var c: TCPCrypt? := null;
      if obfuscated {
        c := new TCPCrypt(f.packet);
      }
      this.exchange, framer, crypt, wire, flushed := exchange, f, c, [], 0;
    }

    /** writeRaw: encrypted with the sending key once the session encrypts. */
    method WriteRaw(data: seq<Byte>)
      requires Sound() && (crypt != null && crypt.state.CsEncrypting? ==> crypt.sendKey != null)
      modifies this`wire
      modifies if crypt == null || crypt.sendKey == null then {} else {crypt.sendKey, crypt.sendKey.state}
      ensures Sound() && Owned() == old(Owned()) && framer.View() == old(framer.View())
      ensures var c := old(View()).crypt;
              if c.Some? && c.value.state.CsEncrypting? then
                var k := c.value.sendKey.value;
                && View().crypt == Some(c.value.(sendKey := Some(Advance(k, |data|))))
                && wire == old(wire) + Ciphered(k, data)
              else View().crypt == c && wire == old(wire) + data
    {
      var sent := data;
      if crypt != null && crypt.state.CsEncrypting? {
        sent := crypt.sendKey.Crypt(Some(data), |data|);
      }
      wire := wire + sent;
    }

    /** Frames and dispatches plaintext, and writes what its handlers answered. */
    method Serve(plain: seq<Byte>)
      requires Sound() && !framer.halted && Consistent(framer.View()) && !framer.packet.hasExcess
      requires flushed == |framer.outbox|
      requires crypt != null && crypt.state.CsEncrypting? ==> crypt.sendKey != null
      modifies Owned() - (if crypt == null then {} else {crypt})
      ensures Sound() && Owned() == old(Owned()) && !framer.packet.hasExcess && flushed == |framer.outbox|
      ensures View() == Wired(old(View()), Fold(framer.env, old(framer.View()), plain))
    {
      hide Advance, Ciphered, Fold;
      ghost var c := View().crypt;
      framer.ProcessPacketData(plain);
      assert View().crypt == c;
      WriteRaw(framer.outbox[flushed..]);
      flushed := |framer.outbox|;
    }

    /** The handshake gave up on this stream. */
    method CryptFailure(e: CryptError)
      requires Sound()
      modifies framer`closeReason, framer`halted
      ensures Sound() && Owned() == old(Owned()) && Quiet(View()) == Failed(old(View()), e)
      ensures framer.halted
    {
      framer.CloseWith(CryptFailed(e));
      framer.halted := true;
    }

    /** A read during the client's key exchange, up to the server's answer. */
    method Request(input: seq<Byte>) returns (answer: seq<Byte>)
      requires Valid() && framer.closeReason.None? && crypt != null && crypt.state.CsUnknown?
      modifies Owned()
      ensures Sound() && !framer.packet.hasExcess && flushed == |framer.outbox| && fresh(Owned() - old(Owned()))
      ensures wire == old(wire)
      ensures var p0 := old(View());
              var pending := p0.crypt.value.pending + input;
              if |pending| < RequestNeed(pending) then
                View() == p0.(crypt := Some(p0.crypt.value.(pending := pending))) && answer == []
              else if |pending| > RequestNeed(pending) then
                Quiet(View()) == Failed(p0, EarlyData) && framer.halted && answer == []
              else
                var done := Negotiated(exchange, p0, pending[1..1 + PRIME_SIZE]);
                View() == done.(wire := wire) && answer != [] && done.wire == wire + answer
    {
      hide Advance, Ciphered;
      var err;
      answer, err := crypt.ProcessRequest(exchange, input);
      if err.Some? {
        CryptFailure(err.value);
        answer := [];
      }
    }

    /** A read during the client's key exchange, the answer written raw. */
    method KeyExchange(input: seq<Byte>)
      requires Valid() && framer.closeReason.None? && crypt != null && crypt.state.CsUnknown?
      modifies Owned()
      ensures Sound() && !framer.packet.hasExcess && flushed == |framer.outbox| && fresh(Owned() - old(Owned()))
      ensures var p0 := old(View());
              var pending := p0.crypt.value.pending + input;
              if |pending| < RequestNeed(pending) then View() == p0.(crypt := Some(p0.crypt.value.(pending := pending)))
              else if |pending| > RequestNeed(pending) then Quiet(View()) == Failed(p0, EarlyData) && framer.halted
              else View() == Negotiated(exchange, p0, pending[1..1 + PRIME_SIZE])
    {
      hide Advance, Ciphered, Consistent, PipeConsistent, RequestNeed;
      var answer := Request(input);
      ghost var p1 := View();
      if |answer| > 0 {
        WriteRaw(answer);
        assert View() == p1.(wire := wire);
      }
    }

    /** A read during the client's encrypted reply. */
    method Reply(input: seq<Byte>) returns (plain: seq<Byte>)
      requires Valid() && framer.closeReason.None? && crypt != null && crypt.state.CsNegotiating?
      modifies Owned()
      ensures Sound() && !framer.packet.hasExcess && flushed == |framer.outbox| && fresh(Owned() - old(Owned()))
      ensures var p0 := old(View());
              var c := p0.crypt.value;
              var pending := c.pending + Ciphered(c.recvKey.value, input);
              var k := Some(Advance(c.recvKey.value, |input|));
              match Handshake(pending)
              case Wait => View() == p0.(crypt := Some(c.(pending := pending, recvKey := k))) && plain == []
              case Bad(e) => Quiet(View()) == Failed(p0, e) && framer.halted && plain == []
              case Done(rest) =>
                && View() == p0.(crypt := Some(c.(state := CsEncrypting, pending := [], recvKey := k)),
                                 stream := p0.stream.(status := New))
                && plain == rest
    {
      hide Advance, Ciphered;
      var err;
      plain, err := crypt.ProcessReply(input);
      if err.Some? {
        CryptFailure(err.value);
        plain := [];
      }
    }

    /** A read of a session that is not negotiating: plaintext, or decrypted as a whole. */
    method Plain(input: seq<Byte>) returns (plain: seq<Byte>)
      requires Valid() && framer.closeReason.None?
      requires crypt != null ==>
                 || crypt.state.CsNone? || crypt.state.CsEncrypting?
                 || (crypt.state.CsUnknown? && Sniffed(View().crypt.value, input))
      modifies Owned()
      ensures Sound() && !framer.packet.hasExcess && flushed == |framer.outbox| && Owned() == old(Owned())
      ensures framer.View() == old(framer.View()) && wire == old(wire)
      ensures var p0 := old(View());
              if p0.crypt.None? then View() == p0 && plain == input
              else if p0.crypt.value.state.CsEncrypting? then
                var k := p0.crypt.value.recvKey.value;
                View() == WithRecvKey(p0, Advance(k, |input|)) && plain == Ciphered(k, input)
              else View() == p0.(crypt := Some(p0.crypt.value.(state := CsNone))) && plain == input
    {
      hide Advance, Ciphered;
      plain := input;
      if crypt != null && crypt.state.CsEncrypting? {
        plain := crypt.Decrypt(input);
      } else if crypt != null && crypt.state.CsUnknown? {
        crypt.SetState(CsNone);
      }
    }

    /** handleBytes for a session past the handshake, or without one. */
    method HandlePlain(input: seq<Byte>)
      requires Valid() && framer.closeReason.None?
      requires crypt != null ==>
                 || crypt.state.CsNone? || crypt.state.CsEncrypting?
                 || (crypt.state.CsUnknown? && Sniffed(View().crypt.value, input))
      modifies Owned()
      ensures Sound() && !framer.packet.hasExcess && flushed == |framer.outbox| && fresh(Owned() - old(Owned()))
      ensures Quiet(View()) == PipeRead(framer.env, exchange, old(View()), input)
    {
      PlainReads(framer.env, exchange, View(), input);
      var plain := Plain(input);
      Serve(plain);
    }

    /** handleBytes while the client's encrypted reply is under way. */
    method HandleReply(input: seq<Byte>)
      requires Valid() && framer.closeReason.None? && crypt != null && crypt.state.CsNegotiating?
      modifies Owned()
      ensures Sound() && !framer.packet.hasExcess && flushed == |framer.outbox| && fresh(Owned() - old(Owned()))
      ensures Quiet(View()) == PipeRead(framer.env, exchange, old(View()), input)
    {
      NegotiatingChunk(framer.env, exchange, View(), input);
      var plain := Reply(input);
      if |plain| > 0 {
        Serve(plain);
      } else {
        assert framer.outbox[|framer.outbox|..] == [] && wire + [] == wire;
      }
    }

    /** handleBytes: one read of the socket, from sniffing to dispatch. */
    method HandleBytes(input: seq<Byte>)
      requires Valid() && framer.closeReason.None?
      modifies Owned()
      ensures Valid() && fresh(Owned() - old(Owned()))
      ensures Quiet(View()) == PipeRead(framer.env, exchange, old(View()), input)
    {
      FoldKeepsConsistent(framer.env, exchange, View(), input);
      if crypt != null && crypt.state.CsNegotiating? {
        HandleReply(input);
      } else if crypt != null && crypt.state.CsUnknown?
                && !(|input| > 0 && IsProtocol(input[0]) && |crypt.pending| == 0) {
        if !Straddles(View(), input) {
          UnknownChunk(framer.env, exchange, View(), input);
        }
        KeyExchange(input);
      } else {
        HandlePlain(input);
      }
    }

    /** An open session has not halted. */
    lemma OpenIsQuiet()
      requires Valid() && framer.closeReason.None?
      ensures Quiet(View()) == View()
    {
      hide Straddles;
    }

    /** The read loop: reads are handled one by one until the session is closed. */
    method Run(chunks: seq<seq<Byte>>)
      requires Valid()
      modifies Owned()
      ensures Valid() && fresh(Owned() - old(Owned()))
      ensures Quiet(View()) == PipeReads(framer.env, exchange, Quiet(old(View())), chunks)
    {
      hide PipeRead, PipeConsistent, Consistent;
      ghost var all := PipeReads(framer.env, exchange, Quiet(View()), chunks);
      var rest := chunks;
      while rest != [] && framer.closeReason.None?
        invariant Valid() && fresh(Owned() - old(Owned()))
        invariant PipeReads(framer.env, exchange, Quiet(View()), rest) == all
        decreases rest
      {
        OpenIsQuiet();
        HandleBytes(rest[0]);
        rest := rest[1..];
      }
      ReadsOfClosed(framer.env, exchange, Quiet(View()), rest);
    }
  }
}
