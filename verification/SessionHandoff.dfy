/**
 Exporting a live session object and rebuilding it in another process
 (exportState and applyState of ed2k/handoff.go and ed2k/tcpcrypt.go), field by field.
 */
module SessionHandoff {
  import opened Bytes
  import opened Framing
  import opened Handoff
  import opened Pipeline
  import opened Rc4
  import opened Session

  /** exportState of TCPCrypt: the keys are copied, keystream positions included. */
  method ExportCrypt(t: TCPCrypt) returns (st: Crypt)
    requires t.Valid()
    ensures st == t.View()
  {
    var send: Option<Key> := None;
    if t.sendKey != null {
      send := Some(Key(t.sendKey.state[..], t.sendKey.x, t.sendKey.y));
    }
    var recv: Option<Key> := None;
    if t.recvKey != null {
      recv := Some(Key(t.recvKey.state[..], t.recvKey.x, t.recvKey.y));
    }
    st := Crypt(t.state, t.pending, send, recv);
  }

  method ExportState<App>(c: TcpSession<App>) returns (st: SessionState<App>)
    requires c.Valid()
    ensures st == Export(c.View())
  {
    var crypt: Option<Crypt> := None;
    if c.crypt != null {
      var k := ExportCrypt(c.crypt);
      crypt := Some(k);
    }
    var p := c.framer.packet;
    st := SessionState(c.crypt != null, crypt, PacketState(p.status, p.protocol, p.code, p.size, p.recv),
                       c.framer.headerBuf, c.framer.loginGateTripped, c.framer.app);
  }

  /** importState: the object takes over the exported state, with key objects of its own. */
  method ImportCrypt(t: TCPCrypt, st: Crypt)
    requires t.Valid()
    modifies t
    ensures t.Valid() && t.View() == st && fresh(t.Owned() - {t})
  {
    t.state, t.pending := st.state, st.pending;
    t.sendKey, t.recvKey := null, null;
    if st.sendKey.Some? {
      t.sendKey := new RC4Key.Restore(st.sendKey.value);
    }
    if st.recvKey.Some? {
      t.recvKey := new RC4Key.Restore(st.recvKey.value);
    }
  }

  /** The framing half of applyState: the packet under way, the partial header, the gate's latch. */
  method ApplyStream<App>(f: Framer<App>, st: SessionState<App>)
    modifies f`headerBuf, f`loginGateTripped, f.packet
    ensures f.packet.hasExcess == old(f.packet.hasExcess)
    ensures f.View() == old(f.View()).(
                        status := st.packet.status, protocol := st.packet.protocol, code := st.packet.code,
                        size := st.packet.size, recv := st.packet.recv,
                        headerBuf := if |st.headerBuf| > 0 then st.headerBuf else old(f.headerBuf),
                        tripped := st.loginGateTripped)
  {
    var p := f.packet;
    p.status, p.protocol, p.code := st.packet.status, st.packet.protocol, st.packet.code;
    p.size, p.recv := st.packet.size, st.packet.recv;
    if |st.headerBuf| > 0 {
      f.headerBuf := st.headerBuf;
    }
    f.loginGateTripped := st.loginGateTripped;
  }

  /** applyState on a session that was just built for the same kind of listener. */
  method ApplyState<App>(c: TcpSession<App>, st: SessionState<App>)
    requires c.Sound() && c.View() == Built(st.obfuscated, st.app) && c.flushed == 0 && !c.framer.packet.hasExcess
    modifies c.Owned()
    ensures c.Sound() && c.View() == Apply(st) && fresh(c.Owned() - old(c.Owned()))
    ensures c.flushed == |c.framer.outbox| && !c.framer.packet.hasExcess
  {
    if c.crypt != null && st.crypt.Some? {
      ImportCrypt(c.crypt, st.crypt.value);
    }
    ApplyStream(c.framer, st);
  }

  /** RestoreSessions for one session: built as for a new connection, then given the exported state. */
  method Rebuild<App>(env: Env<App>, exchange: Exchange, st: SessionState<App>) returns (d: TcpSession<App>)
    requires exchange.Valid() && PipeConsistent(Quiet(Apply(st)))
    ensures fresh(d) && d.Valid() && d.framer.env == env && d.exchange == exchange && d.View() == Apply(st)
  {
    hide PipeConsistent, Apply;
    d := new TcpSession(env, exchange, st.app, st.obfuscated);
    ApplyState(d, st);
  }

  /** A session handed over: the rebuilt object continues exactly where the exported one stood. */
  method HandOver<App>(c: TcpSession<App>) returns (d: TcpSession<App>)
    requires c.Valid() && c.framer.closeReason.None?
    ensures fresh(d) && d.Valid() && d.framer.env == c.framer.env && d.exchange == c.exchange
    ensures After(c.View(), d.View()) == c.View()
  {
    c.OpenIsQuiet();
    AppliedConsistent(c.View());
    ExportApply(c.View());
    hide PipeConsistent, Apply, Export, After, Quiet;
    var st := ExportState(c);
    d := Rebuild(c.framer.env, c.exchange, st);
  }

  lemma AppliedConsistent<App>(p: Pipe<App>)
    requires PipeConsistent(p) && p.stream.closed.None? && !p.stream.halted
    ensures PipeConsistent(Quiet(Apply(Export(p))))
  {
  }
}
