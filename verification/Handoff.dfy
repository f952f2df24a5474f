/**
 Handing a live TCP session to a successor process (ed2k/handoff.go): parking the read
 loop, holding the write lock, exporting the stream state and rebuilding it.

 The machine has the goroutines that touch one session: its read loop (`run`), any number
 of writers (`writeRaw`), and the parker (`ParkSessions`, `Export`, `HandOff`, `Resume`).
 Each action is one indivisible piece of one of them; the order is arbitrary.
 */
module Handoff {
  import opened Bytes
  import opened Framing
  import opened Pipeline
  import opened Rc4

  // ---------------------------------------------------------------- export and apply

  datatype PacketState = PacketState(status: Status, protocol: Byte, code: Byte, size: nat, recv: seq<Byte>)

  /** What crosses to the successor; `app` stands for the fields the opcode handlers use. */
  datatype SessionState<App> = SessionState(
    obfuscated: bool, crypt: Option<Crypt>, packet: PacketState, headerBuf: seq<Byte>,
    loginGateTripped: bool, app: App)

  function Export<App>(p: Pipe<App>): SessionState<App> {
    var s := p.stream;
    SessionState(p.crypt.Some?, p.crypt, PacketState(s.status, s.protocol, s.code, s.size, s.recv),
                 s.headerBuf, s.tripped, s.app)
  }

  function Apply<App>(st: SessionState<App>): Pipe<App> {
    var c := Built(st.obfuscated, st.app);
    var s := c.stream.(
      status := st.packet.status, protocol := st.packet.protocol, code := st.packet.code,
      size := st.packet.size, recv := st.packet.recv,
      headerBuf := if |st.headerBuf| > 0 then st.headerBuf else c.stream.headerBuf,
      tripped := st.loginGateTripped);
    Pipe(if c.crypt.Some? && st.crypt.Some? then st.crypt else c.crypt, s, c.wire)
  }

  /** The same stream with its history in front: what was dispatched and written before. */
  function Behind<App>(past: Stream<App>, s: Stream<App>): Stream<App> {
    s.(log := past.log + s.log, out := past.out + s.out)
  }

  function After<App>(past: Pipe<App>, p: Pipe<App>): Pipe<App> {
    p.(stream := Behind(past.stream, p.stream), wire := past.wire + p.wire)
  }

  /** Applying an export to a fresh session gives the session back, minus its history. */
  lemma ExportApply<App>(p: Pipe<App>)
    requires p.stream.closed.None? && !p.stream.halted
    ensures After(p, Apply(Export(p))) == p
  {
    var q := Apply(Export(p));
    assert p.stream.log + q.stream.log == p.stream.log;
    assert p.stream.out + q.stream.out == p.stream.out;
    assert p.wire + q.wire == p.wire;
  }

  // ---------------------------------------------------------------- events

  /** What can happen to a session's stream: a byte arrives, a read runs past the key exchange, something is written. */
  datatype Event = Arrive(b: Byte) | Early | Write(data: seq<Byte>)

  function Wrote<App>(p: Pipe<App>, data: seq<Byte>): Pipe<App> {
    if p.crypt.Some? && p.crypt.value.state.CsEncrypting? && p.crypt.value.sendKey.Some? then
      var c := p.crypt.value;
      var k := c.sendKey.value;
      p.(crypt := Some(c.(sendKey := Some(Advance(k, |data|)))), wire := p.wire + Ciphered(k, data))
    else p.(wire := p.wire + data)
  }

  function Happen<App>(env: Env<App>, x: Exchange, p: Pipe<App>, e: Event): Pipe<App>
    requires x.Valid()
  {
    match e
    case Arrive(b) => PipeStep(env, x, p, b)
    case Early => Failed(p, EarlyData)
    case Write(data) => Wrote(p, data)
  }

  function HappenAll<App>(env: Env<App>, x: Exchange, p: Pipe<App>, es: seq<Event>): Pipe<App>
    requires x.Valid()
  {
    if es == [] then p else Happen(env, x, HappenAll(env, x, p, es[..|es| - 1]), es[|es| - 1])
  }

  lemma {:induction false} HappenConcat<App>(env: Env<App>, x: Exchange, p: Pipe<App>, a: seq<Event>, b: seq<Event>)
    requires x.Valid()
    ensures HappenAll(env, x, p, a + b) == HappenAll(env, x, HappenAll(env, x, p, a), b)
    decreases b
  {
    if b == [] {
      assert a + b == a;
    } else {
      assert (a + b)[..|a + b| - 1] == a + b[..|b| - 1];
      HappenConcat(env, x, p, a, b[..|b| - 1]);
    }
  }

  // The past of a session does not change what happens to it next.

  lemma DispatchedAfter<App>(env: Env<App>, past: Stream<App>, s: Stream<App>, payload: seq<Byte>)
    ensures Dispatched(env, Behind(past, s), payload) == Behind(past, Dispatched(env, s, payload))
  {
    var p := InPacket(s.protocol, s.code, payload);
    var r := env.handle(s.app, p);
    assert past.log + (s.log + [p]) == past.log + s.log + [p];
    assert past.out + (s.out + r.wrote) == past.out + s.out + r.wrote;
  }

  lemma HeaderReadAfter<App>(env: Env<App>, past: Stream<App>, s: Stream<App>, h: seq<Byte>)
    requires |h| == HEADER_SIZE
    ensures HeaderRead(env, Behind(past, s), h) == Behind(past, HeaderRead(env, s, h))
  {
    hide Number;
    if !GateOpen(env, s, h) {
      assert past.out + (s.out + env.notLoggedIn) == past.out + s.out + env.notLoggedIn;
    } else if 0 < Number(h[1..5]) <= MAX_TCP_PACKET_SIZE + 1 {
      var t := s.(protocol := h[0], size := Number(h[1..5]) - 1, code := h[5], recv := []);
      DispatchedAfter(env, past, t, []);
    }
  }

  lemma StepAfter<App>(env: Env<App>, past: Stream<App>, s: Stream<App>, b: Byte)
    ensures Step(env, Behind(past, s), b) == Behind(past, Step(env, s, b))
  {
    if s.status.New? && |s.headerBuf| + 1 == HEADER_SIZE {
      HeaderReadAfter(env, past, s.(headerBuf := []), s.headerBuf + [b]);
    } else if s.status.WaitingData? {
      DispatchedAfter(env, past, s, s.recv + [b]);
    }
  }

  lemma PlainStepAfter<App>(env: Env<App>, past: Pipe<App>, p: Pipe<App>, b: Byte)
    ensures PlainStep(env, After(past, p), b) == After(past, PlainStep(env, p, b))
  {
    hide Step, Ciphered, Advance;
    StepAfter(env, past.stream, p.stream, b);
    var s, t := Step(env, p.stream, b), Step(env, Behind(past.stream, p.stream), b);
    var wrote := s.out[|p.stream.out|..];
    assert t.out[|past.stream.out + p.stream.out|..] == wrote;
    assert past.wire + (p.wire + wrote) == past.wire + p.wire + wrote;
    if p.crypt.Some? && p.crypt.value.sendKey.Some? {
      var c := Ciphered(p.crypt.value.sendKey.value, wrote);
      assert past.wire + (p.wire + c) == past.wire + p.wire + c;
    }
  }

  lemma HappenAfter<App>(env: Env<App>, x: Exchange, past: Pipe<App>, p: Pipe<App>, e: Event)
    requires x.Valid()
    ensures Happen(env, x, After(past, p), e) == After(past, Happen(env, x, p, e))
  {
    match e
    case Early =>
    case Write(data) =>
      assert past.wire + (p.wire + data) == past.wire + p.wire + data;
      if p.crypt.Some? && p.crypt.value.sendKey.Some? {
        var c := Ciphered(p.crypt.value.sendKey.value, data);
        assert past.wire + (p.wire + c) == past.wire + p.wire + c;
      }
    case Arrive(b) =>
      if !p.stream.halted {
        if p.crypt.None? || p.crypt.value.state.CsNone? {
          PlainStepAfter(env, past, p, b);
        } else {
          CryptStepAfter(env, x, past, p, b);
        }
      }
  }

  lemma CryptStepAfter<App>(env: Env<App>, x: Exchange, past: Pipe<App>, p: Pipe<App>, b: Byte)
    requires x.Valid() && !p.stream.halted && p.crypt.Some? && !p.crypt.value.state.CsNone?
    ensures PipeStep(env, x, After(past, p), b) == After(past, PipeStep(env, x, p, b))
  {
    hide Step, Ciphered, Advance, PlainStep, Next, Pad, Xor;
    var c := p.crypt.value;
    match c.state
    case CsUnknown =>
      PlainStepAfter(env, past, p.(crypt := Some(c.(state := CsNone))), b);
      var pending := c.pending + [b];
      if |pending| >= REQUEST_FIXED {
        var send := x.SendKey(pending[1..1 + PRIME_SIZE]);
        var answer := x.public + Ciphered(send, x.SyncBlock());
        assert past.wire + (p.wire + answer) == past.wire + p.wire + answer;
      }
    case CsNegotiating =>
    case CsEncrypting =>
      if c.recvKey.Some? {
        var k := Next(c.recvKey.value);
        PlainStepAfter(env, past, WithRecvKey(p, k), Xor(b, Pad(k)));
      }
  }

  lemma {:induction false} HappenAllAfter<App>(env: Env<App>, x: Exchange, past: Pipe<App>, p: Pipe<App>, es: seq<Event>)
    requires x.Valid()
    ensures HappenAll(env, x, After(past, p), es) == After(past, HappenAll(env, x, p, es))
    decreases es
  {
    if es != [] {
      HappenAllAfter(env, x, past, p, es[..|es| - 1]);
      HappenAfter(env, x, past, HappenAll(env, x, p, es[..|es| - 1]), es[|es| - 1]);
    }
  }

  /**
   A handover is invisible to the byte stream: what the successor does with every later
   byte and write, put behind what the predecessor did, is what one process would have
   done: the same packets, the same replies, the same bytes on the wire, and both RC4
   keys at the same position.
   */
  lemma HandoverInvisible<App>(env: Env<App>, x: Exchange, p: Pipe<App>, es: seq<Event>)
    requires x.Valid() && p.stream.closed.None? && !p.stream.halted
    ensures After(p, HappenAll(env, x, Apply(Export(p)), es)) == HappenAll(env, x, p, es)
  {
    ExportApply(p);
    HappenAllAfter(env, x, p, Apply(Export(p)), es);
  }

  // ---------------------------------------------------------------- one keystream

  /** The plaintext one event makes the session send. */
  function Uttered<App>(env: Env<App>, x: Exchange, p: Pipe<App>, e: Event): seq<Byte>
    requires x.Valid()
  {
    if e.Write? then e.data
    else
      var out := Happen(env, x, p, e).stream.out;
      if |p.stream.out| <= |out| then out[|p.stream.out|..] else []
  }

  /** The plaintext a session sends while these events happen, in the order it is sent. */
  function Said<App>(env: Env<App>, x: Exchange, p: Pipe<App>, es: seq<Event>): seq<Byte>
    requires x.Valid()
  {
    if es == [] then []
    else
      Said(env, x, p, es[..|es| - 1]) + Uttered(env, x, HappenAll(env, x, p, es[..|es| - 1]), es[|es| - 1])
  }

  ghost predicate Encrypting<App>(p: Pipe<App>) {
    !p.stream.halted && p.crypt.Some? && p.crypt.value.state.CsEncrypting?
    && p.crypt.value.sendKey.Some? && p.crypt.value.recvKey.Some?
  }

  /** `q` has sent `data` since `p`, enciphered with one run of the sending keystream. */
  ghost predicate SentSince<App>(p: Pipe<App>, q: Pipe<App>, data: seq<Byte>) {
    && Encrypting(p) && Encrypting(q)
    && var k := p.crypt.value.sendKey.value;
       q.wire == p.wire + Ciphered(k, data) && q.crypt.value.sendKey.value == Advance(k, |data|)
  }

  lemma SentSinceJoin<App>(p: Pipe<App>, q: Pipe<App>, r: Pipe<App>, a: seq<Byte>, b: seq<Byte>)
    requires SentSince(p, q, a) && SentSince(q, r, b)
    ensures SentSince(p, r, a + b)
  {
    hide Advance, Ciphered;
    var k := p.crypt.value.sendKey.value;
    CipheredConcat(k, a, b);
    AdvanceAdd(k, |a|, |b|);
    assert p.wire + Ciphered(k, a) + Ciphered(Advance(k, |a|), b)
        == p.wire + (Ciphered(k, a) + Ciphered(Advance(k, |a|), b));
  }

  lemma SentByEvent<App>(env: Env<App>, x: Exchange, p: Pipe<App>, e: Event)
    requires x.Valid() && Encrypting(p) && !Happen(env, x, p, e).stream.halted
    ensures SentSince(p, Happen(env, x, p, e), Uttered(env, x, p, e))
  {
    hide Advance, Ciphered;
    if e.Arrive? {
      var k := Next(p.crypt.value.recvKey.value);
      var s := Step(env, p.stream, Xor(e.b, Pad(k)));
      assert Happen(env, x, p, e) == Wired(WithRecvKey(p, k), s);
    }
  }

  lemma HaltedStays<App>(env: Env<App>, x: Exchange, p: Pipe<App>, e: Event)
    requires x.Valid() && p.stream.halted
    ensures Happen(env, x, p, e).stream.halted
  {
  }

  /** Everything an encrypting session sends is one run of its sending keystream: no byte of it skipped or used twice. */
  lemma {:induction false} OneKeystream<App>(env: Env<App>, x: Exchange, p: Pipe<App>, es: seq<Event>)
    requires x.Valid() && Encrypting(p) && !HappenAll(env, x, p, es).stream.halted
    ensures SentSince(p, HappenAll(env, x, p, es), Said(env, x, p, es))
    decreases es
  {
    if es == [] {
      assert p.wire + [] == p.wire;
    } else {
      var pre, e := es[..|es| - 1], es[|es| - 1];
      var q := HappenAll(env, x, p, pre);
      if q.stream.halted {
        HaltedStays(env, x, q, e);
      }
      OneKeystream(env, x, p, pre);
      SentByEvent(env, x, q, e);
      SentSinceJoin(p, q, Happen(env, x, q, e), Said(env, x, p, pre), Uttered(env, x, q, e));
    }
  }

  // ---------------------------------------------------------------- the goroutines of one session

  datatype Reader = Checking | Loaded(round: nat) | Reading | Handling(rest: seq<Byte>) | Parked(round: nat) | Exited

  /** One parking round, as this session sees it: it parked, the round ended, it ended in a handover. */
  datatype Round = Round(parked: bool, ended: bool, handoff: bool)

  datatype Holder = Free | Writer(id: nat) | ByParker

  datatype Parker<App> =
    | Idle | Polling(round: nat) | Decided(round: nat) | Dropped(round: nat) | Held(round: nat)
    | Exported(round: nat, state: SessionState<App>) | Unlocked(round: nat)
    | Gone(round: nat, state: SessionState<App>) | Over

  datatype M<App> = M(
    pipe: Pipe<App>, events: seq<Event>, reader: Reader, lock: Holder,
    parking: Option<nat>, rounds: seq<Round>, parker: Parker<App>)

  datatype Action =
    // the read loop
    | Check | Begin(chunk: seq<Byte>) | Byte | End | Interrupt | Leave | Park | Wake
    // writers
    | Lock(id: nat) | Put(data: seq<Byte>) | Unlock
    // the parker
    | StartPark | Decide | Drop | EndDrop(handoff: bool) | Take | DoExport | HandOff | Release | Resume

  function Initial<App>(p: Pipe<App>): M<App> {
    M(p, [], Checking, Free, None, [], Idle)
  }

  ghost predicate Enabled<App>(env: Env<App>, x: Exchange, m: M<App>, a: Action)
    requires x.Valid()
  {
    match a
    case Check => m.reader.Checking?
    case Begin(chunk) => m.reader.Reading? && m.pipe.stream.closed.None?
    case Byte =>
      && m.reader.Handling? && m.reader.rest != []
      // A byte whose packet is answered waits for the write lock.
      && (m.lock.Free? || PipeStep(env, x, m.pipe, m.reader.rest[0]).wire == m.pipe.wire)
    case End => m.reader.Handling? && m.reader.rest == []
    case Interrupt => m.reader.Reading? && m.parking.Some?
    case Leave => m.reader.Reading?
    case Park => m.reader.Loaded? && m.reader.round < |m.rounds|
    case Wake => m.reader.Parked? && m.reader.round < |m.rounds| && m.rounds[m.reader.round].ended
    case Lock(_) => m.lock.Free?
    case Put(_) => m.lock.Writer? && m.pipe.stream.closed.None?
    case Unlock => m.lock.Writer?
    case StartPark => m.parker.Idle?
    case Decide => m.parker.Polling? && m.parker.round < |m.rounds| && m.rounds[m.parker.round].parked
    case Drop => m.parker.Polling? && m.parker.round < |m.rounds| && !m.rounds[m.parker.round].parked
    case EndDrop(_) => m.parker.Dropped? && m.parker.round < |m.rounds|
    case Take => m.parker.Decided? && m.lock.Free?
    case DoExport => m.parker.Held? && m.pipe.stream.closed.None? && !m.pipe.stream.halted
    case HandOff => m.parker.Exported? && m.parker.round < |m.rounds|
    case Release => m.parker.Held? || m.parker.Exported?
    case Resume => m.parker.Unlocked? && m.parker.round < |m.rounds|
  }

  function Occur<App>(env: Env<App>, x: Exchange, m: M<App>, e: Event): M<App>
    requires x.Valid()
  {
    m.(pipe := Happen(env, x, m.pipe, e), events := m.events + [e])
  }

  function Ended(rounds: seq<Round>, r: nat, handoff: bool): seq<Round>
    requires r < |rounds|
  {
    rounds[r := rounds[r].(ended := true, handoff := handoff)]
  }

  ghost function Do<App>(env: Env<App>, x: Exchange, m: M<App>, a: Action): M<App>
    requires x.Valid() && Enabled(env, x, m, a)
  {
    match a
    case Check => m.(reader := if m.parking.Some? then Loaded(m.parking.value) else Reading)
    case Begin(chunk) =>
      if Straddles(m.pipe, chunk) then Occur(env, x, m, Early).(reader := Handling([]))
      else m.(reader := Handling(chunk))
    case Byte => Occur(env, x, m, Arrive(m.reader.rest[0])).(reader := Handling(m.reader.rest[1..]))
    case End => m.(reader := Checking)
    case Interrupt => m.(reader := Loaded(m.parking.value))
    case Leave => m.(reader := Exited)
    case Park =>
      var r := m.reader.round;
      m.(reader := Parked(r), rounds := m.rounds[r := m.rounds[r].(parked := true)])
    case Wake => m.(reader := if m.rounds[m.reader.round].handoff then Exited else Checking)
    case Lock(id) => m.(lock := Writer(id))
    case Put(data) => Occur(env, x, m, Write(data))
    case Unlock => m.(lock := Free)
    case StartPark =>
      m.(parking := Some(|m.rounds|), rounds := m.rounds + [Round(false, false, false)], parker := Polling(|m.rounds|))
    case Decide => m.(parker := Decided(m.parker.round))
    case Drop => m.(parker := Dropped(m.parker.round))
    case EndDrop(handoff) =>
      m.(rounds := Ended(m.rounds, m.parker.round, handoff), parker := if handoff then Over else Idle,
      parking := if handoff then m.parking else None)
    case Take => m.(lock := ByParker, parker := Held(m.parker.round))
    case DoExport => m.(parker := Exported(m.parker.round, Export(m.pipe)))
    case HandOff =>
      m.(rounds := Ended(m.rounds, m.parker.round, true), parker := Gone(m.parker.round, m.parker.state))
    case Release => m.(lock := Free, parker := Unlocked(m.parker.round))
    case Resume => m.(rounds := Ended(m.rounds, m.parker.round, false), parking := None, parker := Idle)
  }

  /** The invariant that makes the parked session a still one. */
  ghost predicate Inv<App>(m: M<App>) {
    && (forall r :: 0 <= r < |m.rounds| && m.rounds[r].parked && !m.rounds[r].ended ==> m.reader == Parked(r))
    && (m.reader.Loaded? || m.reader.Parked? ==> m.reader.round < |m.rounds|)
    && (m.parking.Some? ==> m.parking.value < |m.rounds|)
    && (m.lock.ByParker? <==> m.parker.Held? || m.parker.Exported? || m.parker.Gone?)
    && match m.parker
       case Idle => true
       case Over => true
       case Polling(r) => r < |m.rounds| && !m.rounds[r].ended
       case Dropped(r) => r < |m.rounds| && !m.rounds[r].ended
       case Gone(r, st) =>
         && r < |m.rounds| && m.rounds[r].ended && m.rounds[r].handoff
         && (m.reader == Parked(r) || m.reader.Exited?)
         && st == Export(m.pipe) && m.pipe.stream.closed.None? && !m.pipe.stream.halted
       case Exported(r, st) =>
         && r < |m.rounds| && !m.rounds[r].ended && m.reader == Parked(r)
         && st == Export(m.pipe) && m.pipe.stream.closed.None? && !m.pipe.stream.halted
       case Decided(r) => r < |m.rounds| && !m.rounds[r].ended && m.reader == Parked(r)
       case Held(r) => r < |m.rounds| && !m.rounds[r].ended && m.reader == Parked(r)
       case Unlocked(r) => r < |m.rounds| && !m.rounds[r].ended && m.reader == Parked(r)
  }

  lemma DoKeepsInv<App>(env: Env<App>, x: Exchange, m: M<App>, a: Action)
    requires x.Valid() && Inv(m) && Enabled(env, x, m, a)
    ensures Inv(Do(env, x, m, a))
  {
    hide PipeStep, Happen, Export;
  }

  /** While the parker holds the write lock, and for good once it handed the session over, nothing reads, writes or moves it. */
  lemma StillWhileHeld<App>(env: Env<App>, x: Exchange, m: M<App>, a: Action)
    requires x.Valid() && Inv(m) && Enabled(env, x, m, a) && m.lock.ByParker?
    ensures !a.Begin? && !a.Byte? && !a.Put?
    ensures Do(env, x, m, a).pipe == m.pipe && Do(env, x, m, a).events == m.events
    ensures !a.Release? ==> Do(env, x, m, a).lock.ByParker?
    ensures m.parker.Gone? ==> Do(env, x, m, a).parker == m.parker
  {
    hide PipeStep, Happen, Export;
  }

  ghost predicate Run<App>(env: Env<App>, x: Exchange, m: M<App>, acts: seq<Action>, m': M<App>)
    requires x.Valid()
    decreases acts
  {
    if acts == [] then m == m'
    else Enabled(env, x, m, acts[0]) && Run(env, x, Do(env, x, m, acts[0]), acts[1..], m')
  }

  ghost predicate EventsExplain<App>(env: Env<App>, x: Exchange, p: Pipe<App>, m: M<App>)
    requires x.Valid()
  {
    m.pipe == HappenAll(env, x, p, m.events)
  }

  lemma DoExplains<App>(env: Env<App>, x: Exchange, p: Pipe<App>, m: M<App>, a: Action)
    requires x.Valid() && Enabled(env, x, m, a) && EventsExplain(env, x, p, m)
    ensures EventsExplain(env, x, p, Do(env, x, m, a))
  {
    hide PipeStep, Happen, Export;
    var m' := Do(env, x, m, a);
    if m'.events != m.events {
      assert m'.events[..|m'.events| - 1] == m.events;
    }
  }

  // ---------------------------------------------------------------- every byte read is served

  /** The bytes among the events, in order. */
  function Arrived(es: seq<Event>): seq<Byte> {
    if es == [] then []
    else if es[|es| - 1].Arrive? then Arrived(es[..|es| - 1]) + [es[|es| - 1].b]
    else Arrived(es[..|es| - 1])
  }

  /** What the reader took from the socket and has not handled yet. */
  function InHand(r: Reader): seq<Byte> { if r.Handling? then r.rest else [] }

  /** The bytes an action takes from the socket, and those a run takes. */
  function Took(a: Action): seq<Byte> { if a.Begin? then a.chunk else [] }

  function TookAll(acts: seq<Action>): seq<Byte> {
    if acts == [] then [] else Took(acts[0]) + TookAll(acts[1..])
  }

  /** Nothing read is lost or served twice, unless a read ran past the key exchange; that closes the session. */
  ghost predicate NothingLost<App>(m: M<App>, taken: seq<Byte>) {
    if Early in m.events then m.pipe.stream.closed.Some? else taken == Arrived(m.events) + InHand(m.reader)
  }

  lemma ArrivedSnoc(es: seq<Event>, e: Event)
    ensures Arrived(es + [e]) == if e.Arrive? then Arrived(es) + [e.b] else Arrived(es)
  {
    assert (es + [e])[..|es|] == es;
  }

  /** Once closed, a session stays closed. */
  lemma ClosedForGood<App>(env: Env<App>, x: Exchange, p: Pipe<App>, e: Event)
    requires x.Valid() && p.stream.closed.Some?
    ensures Happen(env, x, p, e).stream.closed.Some?
  {
    forall b: Byte ensures Step(env, p.stream, b).closed == p.stream.closed {
      StepKeepsClose(env, p.stream, b);
    }
    hide Step, Ciphered, Advance, Next, Pad, Xor, RequestNeed, Handshake;
  }

  lemma EarlyCloses<App>(env: Env<App>, x: Exchange, p: Pipe<App>, e: Event)
    requires x.Valid() && (e.Early? || p.stream.closed.Some?)
    ensures Happen(env, x, p, e).stream.closed.Some?
  {
    if !e.Early? { ClosedForGood(env, x, p, e); }
  }

  lemma EarlyShows(es: seq<Event>, e: Event)
    ensures Early in es + [e] <==> Early in es || e.Early?
  {
    assert (es + [e])[|es|] == e;
  }

  lemma OccurLosesNothing<App>(env: Env<App>, x: Exchange, m: M<App>, e: Event, r: Reader, taken: seq<Byte>, took: seq<Byte>)
    requires x.Valid() && NothingLost(m, taken)
    requires e.Early? || InHand(m.reader) + took == (if e.Arrive? then [e.b] else []) + InHand(r)
    ensures NothingLost(Occur(env, x, m, e).(reader := r), taken + took)
  {
    hide Happen, Arrived, InHand;
    EarlyShows(m.events, e);
    if e.Early? || Early in m.events {
      EarlyCloses(env, x, m.pipe, e);
    } else {
      ArrivedSnoc(m.events, e);
      var now, next := InHand(m.reader), InHand(r);
      assert Arrived(m.events) + now + took == Arrived(m.events) + (now + took);
      if e.Arrive? { assert Arrived(m.events) + ([e.b] + next) == Arrived(m.events) + [e.b] + next; }
      else { assert [] + next == next; }
    }
  }

  lemma DoLosesNothing<App>(env: Env<App>, x: Exchange, m: M<App>, a: Action, taken: seq<Byte>)
    requires x.Valid() && Enabled(env, x, m, a) && NothingLost(m, taken)
    ensures NothingLost(Do(env, x, m, a), taken + Took(a))
  {
    match a {
      case Begin(chunk) =>
        if Straddles(m.pipe, chunk) {
          OccurLosesNothing(env, x, m, Early, Handling([]), taken, chunk);
        }
      case Byte => OccurLosesNothing(env, x, m, Arrive(m.reader.rest[0]), Handling(m.reader.rest[1..]), taken, []);
      case Put(data) => OccurLosesNothing(env, x, m, Write(data), m.reader, taken, []);
      case _ =>
    }
    hide PipeStep, Happen, Export, Arrived, Straddles;
  }

  lemma {:induction false} RunKeeps<App>(
    env: Env<App>, x: Exchange, p: Pipe<App>, m: M<App>, acts: seq<Action>, m': M<App>, taken: seq<Byte>)
    requires x.Valid() && Inv(m) && EventsExplain(env, x, p, m) && NothingLost(m, taken) && Run(env, x, m, acts, m')
    ensures Inv(m') && EventsExplain(env, x, p, m') && NothingLost(m', taken + TookAll(acts))
    decreases acts
  {
    hide Inv, EventsExplain, NothingLost, Do;
    if acts == [] {
      assert taken + [] == taken;
    } else {
      DoKeepsInv(env, x, m, acts[0]);
      DoExplains(env, x, p, m, acts[0]);
      DoLosesNothing(env, x, m, acts[0], taken);
      RunKeeps(env, x, p, Do(env, x, m, acts[0]), acts[1..], m', taken + Took(acts[0]));
      TookCons(taken, acts);
    }
  }

  lemma TookCons(taken: seq<Byte>, acts: seq<Action>)
    requires acts != []
    ensures taken + Took(acts[0]) + TookAll(acts[1..]) == taken + TookAll(acts)
  {
    var rest := TookAll(acts[1..]);
    assert TookAll(acts) == Took(acts[0]) + rest;
    hide TookAll, Took;
  }

  /** After the handover the old process stays where it was, whatever it still does. */
  lemma {:induction false} GoneForGood<App>(env: Env<App>, x: Exchange, m: M<App>, acts: seq<Action>, m': M<App>)
    requires x.Valid() && Inv(m) && m.parker.Gone? && Run(env, x, m, acts, m')
    ensures m'.parker == m.parker && m'.pipe == m.pipe && m'.events == m.events && TookAll(acts) == []
    decreases acts
  {
    hide Inv, Do;
    if acts != [] {
      assert m.lock.ByParker? by { GoneHolds(m); }
      StillWhileHeld(env, x, m, acts[0]);
      DoKeepsInv(env, x, m, acts[0]);
      GoneForGood(env, x, Do(env, x, m, acts[0]), acts[1..], m');
    }
  }

  lemma GoneHolds<App>(m: M<App>)
    requires Inv(m) && m.parker.Gone?
    ensures m.lock.ByParker? && InHand(m.reader) == [] && m.pipe.stream.closed.None?
  {
  }

  /**
   Over every interleaving of readers, writers and parking rounds, whatever the successor
   is given when the session is handed over: every byte the old process took from the
   socket was served, once and in order, and serving the later events in the successor
   continues the stream as one process serving all of them would have.
   */
  lemma HandoverOverRuns<App>(env: Env<App>, x: Exchange, p: Pipe<App>, acts: seq<Action>, m: M<App>, later: seq<Event>)
    requires x.Valid() && Run(env, x, Initial(p), acts, m) && m.parker.Gone?
    ensures TookAll(acts) == Arrived(m.events)
    ensures After(m.pipe, HappenAll(env, x, Apply(m.parker.state), later)) == HappenAll(env, x, p, m.events + later)
  {
    RunKeeps(env, x, p, Initial(p), acts, m, []);
    GoneHolds(m);
    assert [] + TookAll(acts) == TookAll(acts) && Arrived(m.events) + [] == Arrived(m.events);
    HandoverInvisible(env, x, m.pipe, later);
    HappenConcat(env, x, p, m.events, later);
  }

  lemma RunFirst<App>(env: Env<App>, x: Exchange, m: M<App>, a: Action, rest: seq<Action>, m': M<App>)
    requires x.Valid() && Enabled(env, x, m, a) && Run(env, x, Do(env, x, m, a), rest, m')
    ensures Run(env, x, m, [a] + rest, m')
  {
    hide Enabled, Do;
    assert ([a] + rest)[1..] == rest;
  }

  /** A parked session is taken over, or goes on reading: both ways out of a round are open. */
  lemma RoundsEnd<App>(env: Env<App>, x: Exchange, p: Pipe<App>) returns (given: seq<Action>, gone: M<App>, kept: seq<Action>, back: M<App>)
    requires x.Valid() && p.stream.closed.None? && !p.stream.halted
    ensures Run(env, x, Initial(p), given, gone) && gone.parker == Gone(0, Export(p))
    ensures Run(env, x, Initial(p), kept, back) && back.reader.Reading? && back.lock.Free? && back.pipe == p
  {
    hide Export;
    var m := Initial(p);
    var m1 := Do(env, x, m, StartPark);
    var m2 := Do(env, x, m1, Check);
    var m3 := Do(env, x, m2, Park);
    var m4 := Do(env, x, m3, Decide);
    var m5 := Do(env, x, m4, Take);
    var held := [StartPark, Check, Park, Decide, Take];
    var m6 := Do(env, x, m5, DoExport);
    gone := Do(env, x, m6, HandOff);
    var n6 := Do(env, x, m5, Release);
    var n7 := Do(env, x, n6, Resume);
    var n8 := Do(env, x, n7, Wake);
    back := Do(env, x, n8, Check);
    RunLast(env, x, m6, HandOff);
    RunFirst(env, x, m5, DoExport, [HandOff], gone);
    RunHeld(env, x, p, m5, [DoExport] + [HandOff], gone);
    given := held + ([DoExport] + [HandOff]);
    RunLast(env, x, n8, Check);
    RunFirst(env, x, n7, Wake, [Check], back);
    RunFirst(env, x, n6, Resume, [Wake] + [Check], back);
    RunFirst(env, x, m5, Release, [Resume] + ([Wake] + [Check]), back);
    RunHeld(env, x, p, m5, [Release] + ([Resume] + ([Wake] + [Check])), back);
    kept := held + ([Release] + ([Resume] + ([Wake] + [Check])));
  }

  lemma RunLast<App>(env: Env<App>, x: Exchange, m: M<App>, a: Action)
    requires x.Valid() && Enabled(env, x, m, a)
    ensures Run(env, x, m, [a], Do(env, x, m, a))
  {
    hide Enabled, Do;
    assert [a][1..] == [];
  }

  /** The way from the start to a parker that holds the lock. */
  lemma RunHeld<App>(env: Env<App>, x: Exchange, p: Pipe<App>, held: M<App>, rest: seq<Action>, m': M<App>)
    requires x.Valid() && held == M(p, [], Parked(0), ByParker, Some(0), [Round(true, false, false)], Held(0))
    requires Run(env, x, held, rest, m')
    ensures Run(env, x, Initial(p), [StartPark, Check, Park, Decide, Take] + rest, m')
  {
    hide Run;
    var m := Initial(p);
    var m1 := Do(env, x, m, StartPark);
    var m2 := Do(env, x, m1, Check);
    var m3 := Do(env, x, m2, Park);
    var m4 := Do(env, x, m3, Decide);
    assert Do(env, x, m4, Take) == held;
    RunFirst(env, x, m4, Take, rest, m');
    RunFirst(env, x, m3, Decide, [Take] + rest, m');
    RunFirst(env, x, m2, Park, [Decide] + ([Take] + rest), m');
    RunFirst(env, x, m1, Check, [Park] + ([Decide] + ([Take] + rest)), m');
    RunFirst(env, x, m, StartPark, [Check] + ([Park] + ([Decide] + ([Take] + rest))), m');
    assert [StartPark] + ([Check] + ([Park] + ([Decide] + ([Take] + rest)))) == [StartPark, Check, Park, Decide, Take] + rest;
  }
}
