/**
 The receive path of one TCP session, from socket bytes to dispatched packets:
 `handleBytes` (ed2k/server_runtime.go) over the obfuscation handshake of `TCPCrypt`
 (ed2k/tcpcrypt.go), RC4 and framing, and the send path `writeRaw`.

 As in Framing, the reference takes one byte at a time. Diffie-Hellman and MD5 are
 parameters: the handshake only needs that both sides derive the same seeds.
 */
module Pipeline {
  import opened Bytes
  import opened Framing
  import opened Rc4

  const PRIME_SIZE: nat := 96
  const REQUEST_FIXED: nat := 1 + PRIME_SIZE + 1
  const REPLY_FIXED: nat := 4 + 1 + 1
  const MAGIC_SERVER: Byte := 203
  const MAGIC_REQUESTER: Byte := 34
  const MAGIC_SYNC: nat := 0x835E6FC4
  const EM_OBFUSCATE: Byte := 0

  datatype CsState = CsNone | CsUnknown | CsNegotiating | CsEncrypting

  datatype Crypt = Crypt(state: CsState, pending: seq<Byte>, sendKey: Option<Key>, recvKey: Option<Key>)

  /** The RC4 key of one direction: seeded with the MD5 of the shared secret and a byte for the direction. */
  function DirectionKey(md5: seq<Byte> -> seq<Byte>, secret: seq<Byte>, magic: Byte): Key {
    Created(md5(secret + [magic]), true)
  }

  /**
   One server-side key exchange: the secret shared with the owner of a public key, the
   digest, the server's own public key, and its padding.
   */
  datatype Exchange = Exchange(
    shared: seq<Byte> -> seq<Byte>, md5: seq<Byte> -> seq<Byte>, public: seq<Byte>, pad: seq<Byte>)
  {
    ghost predicate Valid() { |public| == PRIME_SIZE && |pad| <= 16 }

    /** The two keys for a client's public key, named from the server's side. */
    function SendKey(a: seq<Byte>): Key { DirectionKey(md5, shared(a), MAGIC_SERVER) }

    function RecvKey(a: seq<Byte>): Key { DirectionKey(md5, shared(a), MAGIC_REQUESTER) }

    /** The sync block the server sends encrypted after its public key. */
    function SyncBlock(): seq<Byte>
      requires Valid()
    {
      LittleEndian(MAGIC_SYNC, 4) + [EM_OBFUSCATE, EM_OBFUSCATE, |pad|] + pad
    }
  }

  /** Both keys come from the MD5 of the secret and a byte for their direction, and skip 1024 bytes of their keystream. */
  lemma KeysOf(x: Exchange, a: seq<Byte>)
    requires forall s :: x.md5(s) != []
    ensures x.SendKey(a) == Advance(Created(x.md5(x.shared(a) + [203]), false), 1024)
    ensures x.RecvKey(a) == Advance(Created(x.md5(x.shared(a) + [34]), false), 1024)
  {
    hide Created, Advance;
    DropBurnsIn(x.md5(x.shared(a) + [203]));
    DropBurnsIn(x.md5(x.shared(a) + [34]));
  }

  /** A session's stream state; `wire` is every byte written to its socket. */
  datatype Pipe<App> = Pipe(crypt: Option<Crypt>, stream: Stream<App>, wire: seq<Byte>)

  function RequestNeed(pending: seq<Byte>): nat {
    if |pending| >= REQUEST_FIXED then REQUEST_FIXED + pending[REQUEST_FIXED - 1] else REQUEST_FIXED
  }

  datatype Check = Wait | Bad(error: CryptError) | Done(rest: seq<Byte>)

  /** Judges the client's decrypted reply gathered so far. */
  function Handshake(pending: seq<Byte>): Check {
    if |pending| < 4 then Wait
    else if Number(pending[..4]) != MAGIC_SYNC then Bad(WrongMagic)
    else if |pending| < REPLY_FIXED then Wait
    else if pending[4] != EM_OBFUSCATE then Bad(MethodNotSupported)
    else
      var need := REPLY_FIXED + pending[REPLY_FIXED - 1];
      if |pending| < need then Wait else Done(pending[need..])
  }

  /** Bytes the stream layer wrote since p go out, encrypted once the session encrypts. */
  function Wired<App>(p: Pipe<App>, s: Stream<App>): Pipe<App>
    requires p.stream.out <= s.out
  {
    var wrote := s.out[|p.stream.out|..];
    if p.crypt.Some? && p.crypt.value.state.CsEncrypting? && p.crypt.value.sendKey.Some? then
      var c := p.crypt.value;
      var k := c.sendKey.value;
      Pipe(Some(c.(sendKey := Some(Advance(k, |wrote|)))), s, p.wire + Ciphered(k, wrote))
    else Pipe(p.crypt, s, p.wire + wrote)
  }

  /** Nothing reads the crypt state of a session that dropped its stream. */
  function Quiet<App>(p: Pipe<App>): Pipe<App> {
    if p.stream.halted then p.(crypt := None) else p
  }

  function Failed<App>(p: Pipe<App>, e: CryptError): Pipe<App> {
    p.(crypt := None, stream := Halting(p.stream, CryptFailed(e)))
  }

  /** The key exchange completed: both keys exist, the answer goes out unencrypted. */
  function Negotiated<App>(x: Exchange, p: Pipe<App>, a: seq<Byte>): Pipe<App>
    requires x.Valid()
  {
    var send := x.SendKey(a);
    var recv := x.RecvKey(a);
    var c := Crypt(CsNegotiating, [], Some(Advance(send, |x.SyncBlock()|)), Some(recv));
    var answer := x.public + Ciphered(send, x.SyncBlock());
    p.(crypt := Some(c), stream := p.stream.(status := CryptNegotiating), wire := p.wire + answer)
  }

  function PlainStep<App>(env: Env<App>, p: Pipe<App>, b: Byte): Pipe<App> {
    Quiet(Wired(p, Step(env, p.stream, b)))
  }

  function UnknownStep<App>(env: Env<App>, x: Exchange, p: Pipe<App>, c: Crypt, b: Byte): Pipe<App>
    requires x.Valid()
  {
    var pending := c.pending + [b];
    if c.pending == [] && IsProtocol(b) then PlainStep(env, p.(crypt := Some(c.(state := CsNone))), b)
    else if |pending| >= REQUEST_FIXED && |pending| == RequestNeed(pending) then
      Negotiated(x, p, pending[1..1 + PRIME_SIZE])
    else p.(crypt := Some(c.(pending := pending)))
  }

  function NegotiatingStep<App>(p: Pipe<App>, c: Crypt, b: Byte): Pipe<App>
    requires c.recvKey.Some?
  {
    var k := Next(c.recvKey.value);
    var pending := c.pending + [Xor(b, Pad(k))];
    match Handshake(pending)
    case Wait => p.(crypt := Some(c.(pending := pending, recvKey := Some(k))))
    case Bad(e) => Failed(p, e)
    case Done(_) =>
      p.(crypt := Some(c.(state := CsEncrypting, pending := [], recvKey := Some(k))),
      stream := p.stream.(status := New))
  }

  function EncryptedStep<App>(env: Env<App>, p: Pipe<App>, c: Crypt, b: Byte): Pipe<App>
    requires c.recvKey.Some?
  {
    var k := Next(c.recvKey.value);
    PlainStep(env, p.(crypt := Some(c.(recvKey := Some(k)))), Xor(b, Pad(k)))
  }

  /** The reference: what one more byte from the socket does. */
  function PipeStep<App>(env: Env<App>, x: Exchange, p: Pipe<App>, b: Byte): Pipe<App>
    requires x.Valid()
  {
    if p.stream.halted then p
    else match p.crypt
      case None => PlainStep(env, p, b)
      case Some(c) =>
        match c.state
        case CsNone => PlainStep(env, p, b)
        case CsUnknown => UnknownStep(env, x, p, c, b)
        case CsNegotiating => if c.recvKey.Some? then NegotiatingStep(p, c, b) else p
        case CsEncrypting => if c.recvKey.Some? then EncryptedStep(env, p, c, b) else p
  }

  function PipeFold<App>(env: Env<App>, x: Exchange, p: Pipe<App>, data: seq<Byte>): Pipe<App>
    requires x.Valid()
    decreases data
  {
    if data == [] then p else PipeFold(env, x, PipeStep(env, x, p, data[0]), data[1..])
  }

  // ---------------------------------------------------------------- consistency

  ghost predicate CryptConsistent<App>(c: Crypt, s: Stream<App>) {
    match c.state
    case CsNone => Consistent(s)
    case CsUnknown =>
      && Consistent(s) && s.status.New? && s.headerBuf == [] && s.closed.None?
      && |c.pending| < RequestNeed(c.pending) && (c.pending != [] ==> !IsProtocol(c.pending[0]))
    case CsNegotiating =>
      && s.status.CryptNegotiating? && s.closed.None? && s.headerBuf == []
      && Consistent(s.(status := New))
      && c.sendKey.Some? && c.recvKey.Some? && Handshake(c.pending).Wait?
    case CsEncrypting => Consistent(s) && c.sendKey.Some? && c.recvKey.Some?
  }

  /** What holds between two bytes of every session. */
  ghost predicate PipeConsistent<App>(p: Pipe<App>) {
    match p.crypt
    case None => if p.stream.halted then p.stream.closed.Some? else Consistent(p.stream)
    case Some(c) => !p.stream.halted && CryptConsistent(c, p.stream)
  }

  lemma PlainStepConsistent<App>(env: Env<App>, p: Pipe<App>, b: Byte)
    requires Consistent(p.stream)
    requires p.crypt.Some? ==> CryptConsistent(p.crypt.value, p.stream) && !p.crypt.value.state.CsUnknown?
    ensures PipeConsistent(PlainStep(env, p, b))
    ensures p.stream.closed.Some? ==> PlainStep(env, p, b).stream.closed == p.stream.closed
  {
    StepConsistent(env, p.stream, b);
    var s := Step(env, p.stream, b);
    assert Wired(p, s).stream == s;
  }

  lemma StepKeepsConsistent<App>(env: Env<App>, x: Exchange, p: Pipe<App>, b: Byte)
    requires x.Valid() && PipeConsistent(p)
    ensures PipeConsistent(PipeStep(env, x, p, b))
    ensures p.stream.closed.Some? ==> PipeStep(env, x, p, b).stream.closed == p.stream.closed
  {
    if p.stream.halted {
    } else if p.crypt.None? || p.crypt.value.state.CsNone? {
      PlainStepConsistent(env, p, b);
    } else {
      var c := p.crypt.value;
      match c.state
      case CsUnknown =>
        if c.pending == [] && IsProtocol(b) {
          PlainStepConsistent(env, p.(crypt := Some(c.(state := CsNone))), b);
        }
      case CsNegotiating =>
      case CsEncrypting =>
        var k := Next(c.recvKey.value);
        PlainStepConsistent(env, p.(crypt := Some(c.(recvKey := Some(k)))), Xor(b, Pad(k)));
    }
  }

  lemma {:induction false} FoldKeepsConsistent<App>(env: Env<App>, x: Exchange, p: Pipe<App>, data: seq<Byte>)
    requires x.Valid() && PipeConsistent(p)
    ensures PipeConsistent(PipeFold(env, x, p, data))
    ensures p.stream.closed.Some? ==> PipeFold(env, x, p, data).stream.closed == p.stream.closed
    decreases data
  {
    if data != [] {
      StepKeepsConsistent(env, x, p, data[0]);
      FoldKeepsConsistent(env, x, PipeStep(env, x, p, data[0]), data[1..]);
    }
  }

  lemma {:induction false} PipeFoldConcat<App>(env: Env<App>, x: Exchange, p: Pipe<App>, a: seq<Byte>, b: seq<Byte>)
    requires x.Valid()
    ensures PipeFold(env, x, p, a + b) == PipeFold(env, x, PipeFold(env, x, p, a), b)
    decreases a
  {
    if a == [] {
      assert a + b == b;
    } else {
      assert (a + b)[1..] == a[1..] + b;
      PipeFoldConcat(env, x, PipeStep(env, x, p, a[0]), a[1..], b);
    }
  }

  lemma {:induction false} PipeFoldHalted<App>(env: Env<App>, x: Exchange, p: Pipe<App>, data: seq<Byte>)
    requires x.Valid() && p.stream.halted
    ensures PipeFold(env, x, p, data) == p
    decreases data
  {
    if data != [] { PipeFoldHalted(env, x, p, data[1..]); }
  }

  // ---------------------------------------------------------------- from bytes to chunks

  lemma WiredTwice<App>(p: Pipe<App>, s: Stream<App>, t: Stream<App>)
    requires p.stream.out <= s.out <= t.out
    ensures Wired(Wired(p, s), t) == Wired(p, t)
  {
    hide Ciphered, Advance;
    var u, v := s.out[|p.stream.out|..], t.out[|s.out|..];
    assert t.out[|p.stream.out|..] == u + v;
    if p.crypt.Some? && p.crypt.value.state.CsEncrypting? && p.crypt.value.sendKey.Some? {
      var k := p.crypt.value.sendKey.value;
      CipheredConcat(k, u, v);
      AdvanceAdd(k, |u|, |v|);
      assert p.wire + Ciphered(k, u) + Ciphered(Advance(k, |u|), v) == p.wire + Ciphered(k, u + v);
    } else {
      assert p.wire + u + v == p.wire + (u + v);
    }
  }

  /** A chunk of plaintext is one fold of framing. */
  lemma {:induction false} PlainChunk<App>(env: Env<App>, x: Exchange, p: Pipe<App>, data: seq<Byte>)
    requires x.Valid() && (p.crypt.None? || p.crypt.value.state.CsNone?)
    ensures PipeFold(env, x, p, data) == Quiet(Wired(p, Fold(env, p.stream, data)))
            || (p.stream.halted && PipeFold(env, x, p, data) == p)
    decreases data
  {
    if data == [] || p.stream.halted {
      if p.stream.halted { PipeFoldHalted(env, x, p, data); }
      assert p.stream.out[|p.stream.out|..] == [];
    } else {
      var s := Step(env, p.stream, data[0]);
      var q := Wired(p, s);
      assert PipeStep(env, x, p, data[0]) == Quiet(q);
      if s.halted {
        PipeFoldHalted(env, x, Quiet(q), data[1..]);
        FoldHalted(env, s, data[1..]);
      } else {
        PlainChunk(env, x, q, data[1..]);
        WiredTwice(p, s, Fold(env, s, data[1..]));
      }
    }
  }

  function WithRecvKey<App>(p: Pipe<App>, k: Key): Pipe<App>
    requires p.crypt.Some?
  {
    p.(crypt := Some(p.crypt.value.(recvKey := Some(k))))
  }

  /** A chunk of ciphertext is decrypted as a whole, each byte once, then framed. */
  lemma {:induction false} EncryptedChunk<App>(env: Env<App>, x: Exchange, p: Pipe<App>, data: seq<Byte>)
    requires x.Valid() && !p.stream.halted
    requires p.crypt.Some? && p.crypt.value.state.CsEncrypting? && p.crypt.value.recvKey.Some?
    ensures var k := p.crypt.value.recvKey.value;
            PipeFold(env, x, p, data)
            == Quiet(Wired(WithRecvKey(p, Advance(k, |data|)), Fold(env, p.stream, Ciphered(k, data))))
    decreases data
  {
    var k := p.crypt.value.recvKey.value;
    if data == [] {
      assert p.stream.out[|p.stream.out|..] == [];
    } else {
      var k1 := Next(k);
      var plain := Ciphered(k, data);
      assert plain[1..] == Ciphered(k1, data[1..]);
      var s := Step(env, p.stream, plain[0]);
      var q := Wired(WithRecvKey(p, k1), s);
      assert PipeStep(env, x, p, data[0]) == Quiet(q);
      var t := Fold(env, s, plain[1..]);
      if s.halted {
        PipeFoldHalted(env, x, Quiet(q), data[1..]);
        FoldHalted(env, s, plain[1..]);
      } else {
        EncryptedChunk(env, x, q, data[1..]);
        var kn := Advance(k1, |data[1..]|);
        assert WithRecvKey(q, kn) == Wired(WithRecvKey(p, kn), s);
        WiredTwice(WithRecvKey(p, kn), s, t);
      }
    }
  }

  lemma CheckExtends(pending: seq<Byte>, more: seq<Byte>)
    ensures Handshake(pending).Bad? ==> Handshake(pending + more) == Handshake(pending)
    ensures Handshake(pending).Done? ==> Handshake(pending + more) == Done(Handshake(pending).rest + more)
  {
    var all := pending + more;
    if |pending| >= 4 { assert all[..4] == pending[..4]; }
    if Handshake(pending).Done? {
      var need := REPLY_FIXED + pending[REPLY_FIXED - 1];
      assert all[need..] == pending[need..] + more;
    }
  }

  /** A chunk of the client's encrypted reply: gathered, refused, or completed with what follows it framed. */
  lemma {:induction false} NegotiatingChunk<App>(env: Env<App>, x: Exchange, p: Pipe<App>, data: seq<Byte>)
    requires x.Valid() && PipeConsistent(p) && p.crypt.Some? && p.crypt.value.state.CsNegotiating?
    ensures var c := p.crypt.value;
            var k := c.recvKey.value;
            var pending := c.pending + Ciphered(k, data);
            var k' := Some(Advance(k, |data|));
            PipeFold(env, x, p, data) ==
            match Handshake(pending)
            case Wait => p.(crypt := Some(c.(pending := pending, recvKey := k')))
            case Bad(e) => Failed(p, e)
            case Done(rest) =>
              var q := p.(crypt := Some(c.(state := CsEncrypting, pending := [], recvKey := k')),
                          stream := p.stream.(status := New));
              Quiet(Wired(q, Fold(env, q.stream, rest)))
    decreases data
  {
    var c := p.crypt.value;
    var k := c.recvKey.value;
    if data == [] {
      assert c.pending + [] == c.pending;
    } else {
      var k1 := Next(k);
      var plain := Ciphered(k, data);
      assert plain == [plain[0]] + Ciphered(k1, data[1..]);
      var pending := c.pending + [plain[0]];
      assert c.pending + plain == pending + Ciphered(k1, data[1..]);
      var p' := PipeStep(env, x, p, data[0]);
      StepKeepsConsistent(env, x, p, data[0]);
      CheckExtends(pending, Ciphered(k1, data[1..]));
      match Handshake(pending)
      case Wait => NegotiatingChunk(env, x, p', data[1..]);
      case Bad(e) => PipeFoldHalted(env, x, p', data[1..]);
      case Done(rest) =>
        assert rest == [];
        EncryptedChunk(env, x, p', data[1..]);
        assert rest + Ciphered(k1, data[1..]) == Ciphered(k1, data[1..]);
    }
  }

  /** The stream's first byte says it is plaintext. */
  predicate Sniffed(c: Crypt, data: seq<Byte>) {
    c.pending == [] && data != [] && IsProtocol(data[0])
  }

  /** The read runs past the end of the client's key exchange. */
  predicate Straddles<App>(p: Pipe<App>, data: seq<Byte>) {
    && p.crypt.Some? && p.crypt.value.state.CsUnknown? && !Sniffed(p.crypt.value, data)
    && var pending := p.crypt.value.pending + data; |pending| > RequestNeed(pending)
  }

  /** A chunk of the key exchange that does not run past it: gathered, or answered. */
  lemma {:induction false} UnknownChunk<App>(env: Env<App>, x: Exchange, p: Pipe<App>, data: seq<Byte>)
    requires x.Valid() && PipeConsistent(p) && p.crypt.Some? && p.crypt.value.state.CsUnknown?
    requires !Sniffed(p.crypt.value, data) && !Straddles(p, data)
    ensures var c := p.crypt.value;
            var pending := c.pending + data;
            PipeFold(env, x, p, data) ==
            if |pending| < RequestNeed(pending) then p.(crypt := Some(c.(pending := pending)))
            else Negotiated(x, p, pending[1..1 + PRIME_SIZE])
    decreases data
  {
    var c := p.crypt.value;
    var pending := c.pending + data;
    if data == [] {
      assert pending == c.pending;
    } else {
      var first := c.pending + [data[0]];
      assert pending == first + data[1..];
      var p' := PipeStep(env, x, p, data[0]);
      StepKeepsConsistent(env, x, p, data[0]);
      if |first| >= REQUEST_FIXED && |first| == RequestNeed(first) {
        assert pending[REQUEST_FIXED - 1] == first[REQUEST_FIXED - 1];
        assert data[1..] == [] && pending == first;
      } else {
        UnknownChunk(env, x, p', data[1..]);
      }
    }
  }

  // ---------------------------------------------------------------- reads

  /** One read of the socket as `handleBytes` treats it: data behind the key exchange is an error. */
  function PipeRead<App>(env: Env<App>, x: Exchange, p: Pipe<App>, data: seq<Byte>): Pipe<App>
    requires x.Valid()
  {
    if p.stream.closed.Some? then p
    else if Straddles(p, data) then Failed(p, EarlyData)
    else PipeFold(env, x, p, data)
  }

  /** A read of a session that is not negotiating, in one piece. */
  lemma PlainReads<App>(env: Env<App>, x: Exchange, p: Pipe<App>, data: seq<Byte>)
    requires x.Valid() && PipeConsistent(p) && p.stream.closed.None?
    requires p.crypt.Some? ==>
               var c := p.crypt.value;
               c.state.CsNone? || c.state.CsEncrypting? || (c.state.CsUnknown? && Sniffed(c, data))
    ensures PipeRead(env, x, p, data) ==
            if p.crypt.None? then Quiet(Wired(p, Fold(env, p.stream, data)))
            else
              var c := p.crypt.value;
              if c.state.CsEncrypting? then
                var k := c.recvKey.value;
                Quiet(Wired(WithRecvKey(p, Advance(k, |data|)), Fold(env, p.stream, Ciphered(k, data))))
              else Quiet(Wired(p.(crypt := Some(c.(state := CsNone))), Fold(env, p.stream, data)))
  {
    if p.crypt.None? {
      PlainChunk(env, x, p, data);
    } else if p.crypt.value.state.CsEncrypting? {
      EncryptedChunk(env, x, p, data);
    } else {
      var q := p.(crypt := Some(p.crypt.value.(state := CsNone)));
      PlainChunk(env, x, q, data);
      if p.crypt.value.state.CsUnknown? {
        assert PipeStep(env, x, p, data[0]) == PipeStep(env, x, q, data[0]);
      }
    }
  }

  function PipeReads<App>(env: Env<App>, x: Exchange, p: Pipe<App>, chunks: seq<seq<Byte>>): Pipe<App>
    requires x.Valid()
    decreases chunks
  {
    if chunks == [] then p else PipeReads(env, x, PipeRead(env, x, p, chunks[0]), chunks[1..])
  }

  /** A closed session is not read any more. */
  lemma {:induction false} ReadsOfClosed<App>(env: Env<App>, x: Exchange, p: Pipe<App>, chunks: seq<seq<Byte>>)
    requires x.Valid() && (p.stream.closed.Some? || chunks == [])
    ensures PipeReads(env, x, p, chunks) == p
    decreases chunks
  {
    hide PipeFold, Straddles;
    if chunks != [] { ReadsOfClosed(env, x, p, chunks[1..]); }
  }

  /** A client that waits for the server's key: no read holds both it and anything after it. */
  ghost predicate Waits<App>(env: Env<App>, x: Exchange, p: Pipe<App>, chunks: seq<seq<Byte>>)
    requires x.Valid()
    decreases chunks
  {
    chunks != [] ==>
      && (p.stream.closed.None? ==> !Straddles(p, chunks[0]))
      && Waits(env, x, PipeRead(env, x, p, chunks[0]), chunks[1..])
  }

  lemma {:induction false} WaitsClosed<App>(env: Env<App>, x: Exchange, p: Pipe<App>, chunks: seq<seq<Byte>>)
    requires x.Valid() && p.stream.closed.Some?
    ensures Waits(env, x, p, chunks)
    decreases chunks
  {
    hide PipeFold, Straddles;
    if chunks != [] { WaitsClosed(env, x, p, chunks[1..]); }
  }

  lemma FramingNeverEarly<App>(env: Env<App>, s: Stream<App>, b: Byte)
    requires s.closed != Some(CryptFailed(EarlyData))
    ensures Step(env, s, b).closed != Some(CryptFailed(EarlyData))
  {
  }

  lemma PlainNeverEarly<App>(env: Env<App>, p: Pipe<App>, b: Byte)
    requires p.stream.closed != Some(CryptFailed(EarlyData))
    ensures PlainStep(env, p, b).stream.closed != Some(CryptFailed(EarlyData))
  {
    hide Ciphered, Advance, Step;
    FramingNeverEarly(env, p.stream, b);
    assert Wired(p, Step(env, p.stream, b)).stream == Step(env, p.stream, b);
  }

  /** One byte after the other, nothing is ever early. */
  lemma StepNeverEarly<App>(env: Env<App>, x: Exchange, p: Pipe<App>, b: Byte)
    requires x.Valid() && p.stream.closed != Some(CryptFailed(EarlyData))
    ensures PipeStep(env, x, p, b).stream.closed != Some(CryptFailed(EarlyData))
  {
    hide Ciphered, Advance, Next, Pad, Xor, RequestNeed, Number, PlainStep, DirectionKey;
    PlainNeverEarly(env, p, b);
    if p.crypt.Some? {
      var c := p.crypt.value;
      PlainNeverEarly(env, p.(crypt := Some(c.(state := CsNone))), b);
      if c.recvKey.Some? {
        var k := Next(c.recvKey.value);
        PlainNeverEarly(env, p.(crypt := Some(c.(recvKey := Some(k)))), Xor(b, Pad(k)));
      }
    }
  }

  lemma {:induction false} FoldNeverEarly<App>(env: Env<App>, x: Exchange, p: Pipe<App>, data: seq<Byte>)
    requires x.Valid() && p.stream.closed != Some(CryptFailed(EarlyData))
    ensures PipeFold(env, x, p, data).stream.closed != Some(CryptFailed(EarlyData))
    decreases data
  {
    hide PipeStep;
    if data != [] {
      StepNeverEarly(env, x, p, data[0]);
      FoldNeverEarly(env, x, PipeStep(env, x, p, data[0]), data[1..]);
    }
  }

  /**
   The whole receive path is split-invariant exactly for a client that waits for the
   server's key: unless a packet handler closes the session, a way of cutting its bytes
   into reads gives the same packets, replies, keystream positions and close as any other
   if and only if no read runs past the key exchange.
   */
  lemma {:induction false} PipeSplitInvariant<App>(env: Env<App>, x: Exchange, p: Pipe<App>, chunks: seq<seq<Byte>>)
    requires x.Valid() && PipeConsistent(p) && p.stream.closed.None?
    requires PipeFold(env, x, p, Flatten(chunks)).stream.closed != Some(ByHandler)
    ensures PipeReads(env, x, p, chunks) == PipeFold(env, x, p, Flatten(chunks)) <==> Waits(env, x, p, chunks)
    decreases chunks
  {
    if chunks == [] { return; }
    var a, b := chunks[0], Flatten(chunks[1..]);
    var t := PipeRead(env, x, p, a);
    if Straddles(p, a) {
      ReadsOfClosed(env, x, t, chunks[1..]);
      FoldNeverEarly(env, x, p, Flatten(chunks));
    } else {
      PipeFoldConcat(env, x, p, a, b);
      FoldKeepsConsistent(env, x, p, a);
      FoldKeepsConsistent(env, x, t, b);
      if t.stream.closed.Some? {
        PipeFoldHalted(env, x, t, b);
        ReadsOfClosed(env, x, t, chunks[1..]);
        WaitsClosed(env, x, t, chunks[1..]);
      } else {
        PipeSplitInvariant(env, x, t, chunks[1..]);
      }
    }
  }

  /** And a read that does run past the key exchange is always refused: waiting is necessary. */
  lemma EarlyDataRefused<App>(env: Env<App>, x: Exchange, p: Pipe<App>, a: seq<Byte>, b: seq<Byte>)
    requires x.Valid() && PipeConsistent(p) && p.crypt.Some? && p.crypt.value.state.CsUnknown?
    requires !Sniffed(p.crypt.value, a + b) && a != [] && b != []
    requires var pending := p.crypt.value.pending + a; |pending| == RequestNeed(pending) >= REQUEST_FIXED
    ensures PipeRead(env, x, p, a).stream.closed.None?
    ensures PipeRead(env, x, p, a + b).stream.closed == Some(CryptFailed(EarlyData))
  {
    var c := p.crypt.value;
    var pending := c.pending + a;
    var all := c.pending + (a + b);
    assert all == pending + b;
    assert all[REQUEST_FIXED - 1] == pending[REQUEST_FIXED - 1];
    assert Straddles(p, a + b);
    assert (a + b)[0] == a[0];
    UnknownChunk(env, x, p, a);
    assert PipeFold(env, x, p, a) == Negotiated(x, p, pending[1..1 + PRIME_SIZE]);
  }

  // ---------------------------------------------------------------- the other end

  /** A client's opening: a marker that is no protocol byte, its public key, padding. */
  function ClientRequest(marker: Byte, a: seq<Byte>, pad: seq<Byte>): seq<Byte>
    requires |pad| < 256
  {
    [marker] + a + [|pad|] + pad
  }

  /** A client's reply to the server's key, before encryption. */
  function ClientReply(pad: seq<Byte>): seq<Byte>
    requires |pad| < 256
  {
    LittleEndian(MAGIC_SYNC, 4) + [EM_OBFUSCATE, |pad|] + pad
  }

  lemma RequestComplete(marker: Byte, a: seq<Byte>, pad: seq<Byte>)
    requires |pad| < 256 && |a| == PRIME_SIZE
    ensures var r := ClientRequest(marker, a, pad);
            |r| == RequestNeed(r) && r[1..1 + PRIME_SIZE] == a && r[0] == marker
  {
    var r := ClientRequest(marker, a, pad);
    assert r[REQUEST_FIXED - 1] == |pad|;
  }

  lemma ReplyComplete(pad: seq<Byte>, payload: seq<Byte>)
    requires |pad| < 256
    ensures Handshake(ClientReply(pad) + payload) == Done(payload)
  {
    var r := ClientReply(pad) + payload;
    Powers();
    NumberOfLittleEndian(MAGIC_SYNC, 4);
    assert r[..4] == LittleEndian(MAGIC_SYNC, 4);
    assert r[REPLY_FIXED - 1] == |pad|;
    assert r[REPLY_FIXED + |pad|..] == payload;
  }

  /** The session after the handshake: keys exist, each at the position its side has used. */
  function Secured<App>(x: Exchange, p: Pipe<App>, a: seq<Byte>, received: nat): Pipe<App>
    requires x.Valid()
  {
    var q := Negotiated(x, p, a);
    var c := q.crypt.value;
    q.(crypt := Some(c.(state := CsEncrypting, recvKey := Some(Advance(c.recvKey.value, received)))),
    stream := q.stream.(status := New))
  }

  /** Plaintext that framing took, with the replies it caused written out. */
  function Served<App>(env: Env<App>, p: Pipe<App>, plain: seq<Byte>): Pipe<App> {
    Quiet(Wired(p, Fold(env, p.stream, plain)))
  }

  /** A session newTCPClient has just built. */
  function Built<App>(obfuscated: bool, app: App): Pipe<App> {
    Pipe(if obfuscated then Some(Crypt(CsUnknown, [], None, None)) else None,
         Stream(New, 0, 0, 0, [], [], false, None, false, app, [], []), [])
  }

  /** A session on the obfuscated listener that has received nothing. */
  ghost predicate Unstarted<App>(p: Pipe<App>) {
    p.crypt == Some(Crypt(CsUnknown, [], None, None)) && PipeConsistent(p)
  }

  /**
   A client that arrives at the same secret, and makes its keys from it, completes the
   handshake: its bytes after the padding are decrypted exactly once and are exactly what
   framing sees, and it can read everything the server writes.
   */
  lemma HandshakeCompletes<App>(env: Env<App>, x: Exchange, p: Pipe<App>, marker: Byte, a: seq<Byte>, secret: seq<Byte>,
                                pad1: seq<Byte>, pad2: seq<Byte>, payload: seq<Byte>)
    requires x.Valid() && Unstarted(p) && secret == x.shared(a)
    requires !IsProtocol(marker) && |a| == PRIME_SIZE && |pad1| < 256 && |pad2| < 256
    ensures var reply := Ciphered(DirectionKey(x.md5, secret, MAGIC_REQUESTER), ClientReply(pad2) + payload);
            PipeFold(env, x, p, ClientRequest(marker, a, pad1) + reply)
            == Served(env, Secured(x, p, a, |reply|), payload)
    ensures ClientReads(env, x, p, secret, Served(env, Secured(x, p, a, |ClientReply(pad2) + payload|), payload), payload)
  {
    hide DirectionKey;
    var r := ClientRequest(marker, a, pad1);
    var k := x.RecvKey(a);
    var plain := ClientReply(pad2) + payload;
    var reply := Ciphered(k, plain);
    RequestComplete(marker, a, pad1);
    assert [] + r == r;
    UnknownChunk(env, x, p, r);
    var q := Negotiated(x, p, a);
    PipeFoldConcat(env, x, p, r, reply);
    FoldKeepsConsistent(env, x, p, r);
    NegotiatingChunk(env, x, q, reply);
    CipheredInvolution(k, plain);
    assert [] + plain == plain;
    ReplyComplete(pad2, payload);
    AnswerReads(env, x, p, a, |plain|, payload);
  }

  /**
   What the client sees of a session: its payload was framed, and behind the server's public
   key everything on the wire decrypts, as one stream, to the sync block and the replies.
   */
  ghost predicate ClientReads<App>(env: Env<App>, x: Exchange, p: Pipe<App>, secret: seq<Byte>, t: Pipe<App>, payload: seq<Byte>)
    requires x.Valid()
  {
    && t.stream == Fold(env, p.stream, payload) && |t.wire| >= |p.wire| + PRIME_SIZE
    && t.wire[..|p.wire| + PRIME_SIZE] == p.wire + x.public
    && Ciphered(DirectionKey(x.md5, secret, MAGIC_SERVER), t.wire[|p.wire| + PRIME_SIZE..])
       == x.SyncBlock() + t.stream.out[|p.stream.out|..]
  }

  lemma AnswerReads<App>(env: Env<App>, x: Exchange, p: Pipe<App>, a: seq<Byte>, n: nat, payload: seq<Byte>)
    requires x.Valid() && Unstarted(p)
    ensures ClientReads(env, x, p, x.shared(a), Served(env, Secured(x, p, a, n), payload), payload)
  {
    hide DirectionKey, Ciphered, Advance, Fold;
    var k, sync := x.SendKey(a), x.SyncBlock();
    var t := Served(env, Secured(x, p, a, n), payload);
    assert Secured(x, p, a, n).stream == p.stream;
    var out := t.stream.out[|p.stream.out|..];
    CipheredConcat(k, sync, out);
    CipheredInvolution(k, sync + out);
    var sent := Ciphered(k, sync + out);
    assert t.wire == p.wire + (x.public + Ciphered(k, sync)) + Ciphered(Advance(k, |sync|), out);
    assert t.wire == p.wire + x.public + sent;
    assert t.wire[|p.wire| + PRIME_SIZE..] == sent;
  }

  /** What the server says to a reply that is not the sync block of a client with the same secret. */
  lemma HandshakeRefuses<App>(env: Env<App>, x: Exchange, p: Pipe<App>, marker: Byte, a: seq<Byte>, secret: seq<Byte>,
                              pad1: seq<Byte>, plain: seq<Byte>)
    requires x.Valid() && Unstarted(p) && secret == x.shared(a)
    requires !IsProtocol(marker) && |a| == PRIME_SIZE && |pad1| < 256
    requires |plain| < 6 || Number(plain[..4]) != 0x835E6FC4 || plain[4] != 0 || |plain| < 6 + (plain[5] as int)
    ensures var reply := Ciphered(DirectionKey(x.md5, secret, MAGIC_REQUESTER), plain);
            var t := PipeFold(env, x, p, ClientRequest(marker, a, pad1) + reply);
            && t.stream.log == p.stream.log && t.stream.app == p.stream.app && t.stream.out == p.stream.out
            && t.stream.closed ==
               if |plain| >= 4 && Number(plain[..4]) != 0x835E6FC4 then Some(CryptFailed(WrongMagic))
               else if |plain| >= 6 && plain[4] != 0 then Some(CryptFailed(MethodNotSupported))
               else None
  {
    hide DirectionKey;
    var r := ClientRequest(marker, a, pad1);
    var k := x.RecvKey(a);
    var reply := Ciphered(k, plain);
    RequestComplete(marker, a, pad1);
    assert [] + r == r;
    UnknownChunk(env, x, p, r);
    PipeFoldConcat(env, x, p, r, reply);
    FoldKeepsConsistent(env, x, p, r);
    NegotiatingChunk(env, x, Negotiated(x, p, a), reply);
    CipheredInvolution(k, plain);
    assert [] + plain == plain;
    hide PipeFold, Ciphered, Fold, Number;
  }

  /** A client that speaks plaintext on the obfuscated listener is served as one on the plain listener. */
  lemma PlainServed<App>(env: Env<App>, x: Exchange, p: Pipe<App>, data: seq<Byte>)
    requires x.Valid() && Unstarted(p) && data != [] && IsProtocol(data[0])
    ensures var t := PipeFold(env, x, p, data);
            && t.stream == Fold(env, p.stream, data)
            && t.wire == p.wire + t.stream.out[|p.stream.out|..]
  {
    hide Fold, Step;
    var q := p.(crypt := Some(Crypt(CsNone, [], None, None)));
    PlainChunk(env, x, q, data);
    assert PipeStep(env, x, p, data[0]) == PipeStep(env, x, q, data[0]);
  }

  lemma LeavesUnknown<App>(env: Env<App>, x: Exchange, p: Pipe<App>, b: Byte)
    requires x.Valid() && (p.crypt.None? || !p.crypt.value.state.CsUnknown?)
    ensures var q := PipeStep(env, x, p, b); q.crypt.None? || !q.crypt.value.state.CsUnknown?
  {
  }

  lemma {:induction false} FoldLeavesUnknown<App>(env: Env<App>, x: Exchange, p: Pipe<App>, data: seq<Byte>)
    requires x.Valid() && (p.crypt.None? || !p.crypt.value.state.CsUnknown?)
    ensures var q := PipeFold(env, x, p, data); q.crypt.None? || !q.crypt.value.state.CsUnknown?
    decreases data
  {
    if data != [] {
      LeavesUnknown(env, x, p, data[0]);
      FoldLeavesUnknown(env, x, PipeStep(env, x, p, data[0]), data[1..]);
    }
  }

  lemma {:induction false} WaitsOver<App>(env: Env<App>, x: Exchange, p: Pipe<App>, chunks: seq<seq<Byte>>)
    requires x.Valid() && (p.crypt.None? || !p.crypt.value.state.CsUnknown?)
    ensures Waits(env, x, p, chunks)
    decreases chunks
  {
    if chunks != [] {
      FoldLeavesUnknown(env, x, p, chunks[0]);
      WaitsOver(env, x, PipeRead(env, x, p, chunks[0]), chunks[1..]);
    }
  }

  /** However the request itself is cut, a client whose next bytes come in a later read waits. */
  lemma {:induction false} RequestWaits<App>(env: Env<App>, x: Exchange, p: Pipe<App>, request: seq<Byte>,
                                             first: seq<seq<Byte>>, later: seq<seq<Byte>>)
    requires x.Valid() && PipeConsistent(p)
    requires p.crypt.Some? && p.crypt.value.state.CsUnknown?
    requires request != [] && !IsProtocol(request[0]) && |request| == RequestNeed(request)
    requires p.crypt.value.pending + Flatten(first) == request
    ensures Waits(env, x, p, first + later)
    decreases first
  {
    var c := p.crypt.value;
    var data, chunks := first[0], first + later;
    assert chunks[0] == data && chunks[1..] == first[1..] + later;
    var pending := c.pending + data;
    assert request == pending + Flatten(first[1..]);
    assert |pending| >= REQUEST_FIXED ==> pending[REQUEST_FIXED - 1] == request[REQUEST_FIXED - 1];
    assert c.pending == [] && data != [] ==> data[0] == request[0];
    var q := PipeRead(env, x, p, data);
    UnknownChunk(env, x, p, data);
    FoldKeepsConsistent(env, x, p, data);
    if |pending| < RequestNeed(pending) {
      RequestWaits(env, x, q, request, first[1..], later);
    } else {
      WaitsOver(env, x, q, chunks[1..]);
    }
  }

  /**
   The handshake is split-invariant for a client that waits: however its request and its
   reply are cut into reads, the session ends as if each had arrived whole.
   */
  lemma HandshakeAnyCut<App>(env: Env<App>, x: Exchange, p: Pipe<App>, marker: Byte, a: seq<Byte>, secret: seq<Byte>,
                             pad1: seq<Byte>, pad2: seq<Byte>, payload: seq<Byte>,
                             first: seq<seq<Byte>>, later: seq<seq<Byte>>)
    requires x.Valid() && Unstarted(p) && secret == x.shared(a)
    requires !IsProtocol(marker) && |a| == PRIME_SIZE && |pad1| < 256 && |pad2| < 256
    requires Flatten(first) == ClientRequest(marker, a, pad1)
    requires Flatten(later) == Ciphered(DirectionKey(x.md5, secret, MAGIC_REQUESTER), ClientReply(pad2) + payload)
    requires Served(env, Secured(x, p, a, |Flatten(later)|), payload).stream.closed != Some(ByHandler)
    ensures PipeReads(env, x, p, first + later) == Served(env, Secured(x, p, a, |Flatten(later)|), payload)
    ensures ClientReads(env, x, p, secret, PipeReads(env, x, p, first + later), payload)
  {
    RequestComplete(marker, a, pad1);
    HandshakeCompletes(env, x, p, marker, a, secret, pad1, pad2, payload);
    RequestAnyCut(env, x, p, Flatten(first), first, later);
  }

  lemma RequestAnyCut<App>(env: Env<App>, x: Exchange, p: Pipe<App>, request: seq<Byte>,
                           first: seq<seq<Byte>>, later: seq<seq<Byte>>)
    requires x.Valid() && Unstarted(p) && Flatten(first) == request
    requires request != [] && !IsProtocol(request[0]) && |request| == RequestNeed(request)
    requires PipeFold(env, x, p, request + Flatten(later)).stream.closed != Some(ByHandler)
    ensures PipeReads(env, x, p, first + later) == PipeFold(env, x, p, request + Flatten(later))
  {
    assert p.crypt.value.pending + Flatten(first) == request;
    RequestWaits(env, x, p, request, first, later);
    FlattenConcat(first, later);
    PipeSplitInvariant(env, x, p, first + later);
  }

  lemma {:induction false} FlattenConcat(a: seq<seq<Byte>>, b: seq<seq<Byte>>)
    ensures Flatten(a + b) == Flatten(a) + Flatten(b)
    decreases a
  {
    if a == [] {
      assert a + b == b;
    } else {
      assert (a + b)[1..] == a[1..] + b;
      FlattenConcat(a[1..], b);
    }
  }
}
