/**
 The userspace network stack's own bookkeeping: connections, the sockets they own, and the bytes
 between the app and those sockets. The sockets themselves are the TCP library's; here they are a
 phase, the bytes handed to them, and the chunks they have received.

 `NetState` and the functions on it say what each operation does; the class `NetStack` does it in place.
 */
module Netstack {
  import opened Wrappers
  import opened Varint

  type ConnId = nat
  type Handle = nat
  type RequestId = nat

  const MAX_RECV_CHUNKS: nat := 128
  const FIRST_PORT: nat := 49152
  const LAST_PORT: nat := 65000

  /** The states of a TCP connection (section 3.3.2 of RFC 9293). */
  datatype Phase =
    | Closed | Listen | SynSent | SynReceived | Established
    | FinWait1 | FinWait2 | CloseWait | Closing | LastAck | TimeWait

  /** Why this side first closed a socket: a history variable. */
  datatype Cause = AppFinished | AppGone | PeerFinished

  datatype Socket =
    | TcpSocket(phase: Phase, sent: seq<byte>, received: seq<seq<byte>>, closedFor: Option<Cause>)
    | UdpSocket

  datatype TcpConn = TcpConn(
    handle: Handle,
    responder: Option<RequestId>,
    hasReceiver: bool,
    deadline: nat,
    pending: seq<byte>,
    established: bool,
    halfClosed: bool,
    orphanedAt: Option<nat>,
    aborted: bool)

  datatype UdpConn = UdpConn(handle: Handle)

  datatype DataIn =
    | Tcp(id: ConnId, data: seq<byte>)
    | TcpClose(id: ConnId)
    | Udp(id: ConnId, data: seq<byte>)
    | UdpClose(id: ConnId)

  datatype Answer = Connected(id: ConnId) | Failed(reason: string)

  datatype NetState = NetState(
    sockets: map<Handle, Socket>,
    tcp: map<ConnId, TcpConn>,
    udp: map<ConnId, UdpConn>,
    nextId: nat,
    nextPort: nat,
    answers: seq<(RequestId, Answer)>)

  datatype Limits = Limits(maxPending: nat, connect: nat, orphanLinger: nat)

  /** What one connection's surroundings look like in one tick. */
  datatype View = View(
    room: nat,          // space in the socket's send buffer
    abandoned: bool,    // the opener stopped waiting
    appAlive: bool,     // the app still holds its receiver
    slots: nat)         // free slots in the app's queue

  // ---------------------------------------------------------------- commands

  function AllocPort(next: nat): (nat, nat) {
    (next, if next >= LAST_PORT then FIRST_PORT else next + 1)
  }

  /** A connection that is not up yet and holds its opener's responder. */
  function NewConn(handle: Handle, request: RequestId, deadline: nat): TcpConn {
    TcpConn(handle, Some(request), true, deadline, [], false, false, None, false)
  }

  /** Opening a TCP connection: `connects` is whether the library accepts it, `handle` where it puts the socket. */
  function OpenTcp(s: NetState, request: RequestId, connects: bool, handle: Handle, now: nat, limits: Limits): NetState
    requires handle !in s.sockets
  {
    var s' := s.(nextPort := AllocPort(s.nextPort).1);
    if !connects then s'.(answers := s.answers + [(request, Failed("connect"))])
    else
      s'.(sockets := s.sockets[handle := TcpSocket(SynSent, [], [], None)],
          tcp := s.tcp[s.nextId := NewConn(handle, request, now + limits.connect)],
          nextId := s.nextId + 1)
  }

  /** Opening a UDP socket, which is answered at once either way. */
  function OpenUdp(s: NetState, request: RequestId, binds: bool, handle: Handle): NetState
    requires handle !in s.sockets
  {
    var s' := s.(nextPort := AllocPort(s.nextPort).1);
    if !binds then s'.(answers := s.answers + [(request, Failed("bind"))])
    else
      s'.(sockets := s.sockets[handle := UdpSocket],
          udp := s.udp[s.nextId := UdpConn(handle)],
          answers := s.answers + [(request, Connected(s.nextId))],
          nextId := s.nextId + 1)
  }

  // ---------------------------------------------------------------- data from the app

  /** Takes one item from the app; what comes back must be tried again. */
  function HandleData(s: NetState, d: DataIn, maxPending: nat): (NetState, Option<DataIn>) {
    match d
    case Tcp(id, data) =>
      if id !in s.tcp then (s, None)
      else
        var pending := s.tcp[id].pending;
        if |pending| >= maxPending then (s, Some(d))
        else
          var space := maxPending - |pending|;
          if |data| <= space then (s.(tcp := s.tcp[id := s.tcp[id].(pending := pending + data)]), None)
          else (s.(tcp := s.tcp[id := s.tcp[id].(pending := pending + data[..space])]), Some(Tcp(id, data[space..])))
    case TcpClose(id) =>
      (if id in s.tcp then s.(tcp := s.tcp[id := s.tcp[id].(halfClosed := true)]) else s, None)
    case Udp(id, data) => (s, None)
    case UdpClose(id) =>
      (if id in s.udp then s.(udp := s.udp - {id}, sockets := s.sockets - {s.udp[id].handle}) else s, None)
  }

  /** Takes items in order until one does not fit; what is left starts with the rest of that one. */
  function Process(s: NetState, items: seq<DataIn>, maxPending: nat): (NetState, seq<DataIn>)
    decreases |items|
  {
    if items == [] then (s, [])
    else
      var (s', back) := HandleData(s, items[0], maxPending);
      if back.Some? then (s', [back.value] + items[1..]) else Process(s', items[1..], maxPending)
  }

  // ---------------------------------------------------------------- servicing one TCP connection

  /** What closing does to a phase. */
  function ClosedPhase(phase: Phase): Phase {
    match phase
    case Listen | SynSent => Closed
    case SynReceived | Established => FinWait1
    case CloseWait => LastAck
    case _ => phase
  }

  function CloseSocket(sock: Socket, cause: Cause): (r: Socket)
    requires sock.TcpSocket?
    ensures r.TcpSocket? && r.sent == sock.sent && r.received == sock.received
  {
    sock.(phase := ClosedPhase(sock.phase), closedFor := if sock.closedFor.None? then Some(cause) else sock.closedFor)
  }

  function AbortSocket(sock: Socket): (r: Socket)
    requires sock.TcpSocket?
    ensures r.TcpSocket? && r.sent == sock.sent
  {
    sock.(phase := Closed,
          closedFor := if sock.closedFor.None? && sock.phase != Closed then Some(AppGone) else sock.closedFor)
  }

  datatype Serviced = Removed | Kept(conn: TcpConn, sock: Socket)

  /** A connection that has just come up answers its opener. */
  function Establish(id: ConnId, c: TcpConn, phase: Phase): (r: (TcpConn, Option<(RequestId, Answer)>))
    ensures r.0 == c || (r.0 == c.(established := true, responder := None, hasReceiver := false) && r.0.established)
  {
    if !c.established && (phase == Established || phase == CloseWait) then
      if c.responder.Some? && c.hasReceiver then
        (c.(established := true, responder := None, hasReceiver := false), Some((c.responder.value, Connected(id))))
      else (c.(established := true, responder := None, hasReceiver := false), None)
    else (c, None)
  }

  function Refuse(c: TcpConn, reason: string): Option<(RequestId, Answer)> {
    if c.responder.Some? then Some((c.responder.value, Failed(reason))) else None
  }

  function Min(a: nat, b: nat): nat {
    if a < b then a else b
  }

  /** Hands the socket as much of `pending` as it takes. */
  function SendPending(c: TcpConn, sock: Socket, room: nat): (r: (TcpConn, Socket))
    requires sock.TcpSocket?
    ensures r.1.TcpSocket? && r.0 == c.(pending := r.0.pending) && r.1 == sock.(sent := r.1.sent)
    ensures r.1.sent + r.0.pending == sock.sent + c.pending && |r.0.pending| <= |c.pending|
    ensures sock.sent <= r.1.sent
  {
    var n := if sock.phase == Established || sock.phase == CloseWait then Min(room, |c.pending|) else 0;
    (c.(pending := c.pending[n..]), sock.(sent := sock.sent + c.pending[..n]))
  }

  /** How many received chunks one tick passes to the app. */
  function Deliverable(sock: Socket, v: View): nat
    requires sock.TcpSocket?
  {
    if v.appAlive then Min(MAX_RECV_CHUNKS, Min(v.slots, |sock.received|)) else 0
  }

  /** The tail of a tick: what a peer's close or a finished connection calls for. */
  function Finish(c: TcpConn, sock: Socket): (r: Serviced)
    requires sock.TcpSocket?
    ensures r.Kept? ==> r.conn == c && r.sock.TcpSocket? && r.sock.sent == sock.sent
  {
    if sock.phase == CloseWait then Kept(c, CloseSocket(sock, PeerFinished))
    else if sock.phase == Closed || sock.phase == TimeWait then Removed
    else Kept(c, sock)
  }

  /** An app that dropped its receiver: linger while nothing is lost by it, then abort. */
  function Orphan(c: TcpConn, sock: Socket, now: nat, limits: Limits): (r: Serviced)
    requires sock.TcpSocket?
    ensures r.Kept? ==> r.conn == c.(orphanedAt := r.conn.orphanedAt, aborted := r.conn.aborted)
    ensures r.Kept? ==> r.sock.TcpSocket? && r.sock.sent == sock.sent
  {
    var since := if c.orphanedAt.Some? then c.orphanedAt.value else now;
    var c' := c.(orphanedAt := Some(since));
    if sock.received != [] || now >= since + limits.orphanLinger then
      Kept(c'.(aborted := true), AbortSocket(sock))
    else Finish(c', CloseSocket(sock, AppGone))
  }

  /** An established connection's turn: send, close if the app is done, receive, and tidy up. */
  function EstablishedTurn(c: TcpConn, sock: Socket, v: View, now: nat, limits: Limits): (r: Serviced)
    requires sock.TcpSocket?
    ensures r.Kept? ==>
              r.conn == c.(pending := r.conn.pending, orphanedAt := r.conn.orphanedAt, aborted := r.conn.aborted)
    ensures r.Kept? ==> r.sock.TcpSocket? && r.sock.sent + r.conn.pending == sock.sent + c.pending
    ensures r.Kept? ==> |r.conn.pending| <= |c.pending| && sock.sent <= r.sock.sent
  {
    var (c1, sock1) := SendPending(c, sock, v.room);
    var sock2 := if c1.halfClosed && c1.pending == [] then CloseSocket(sock1, AppFinished) else sock1;
    var sock3 := sock2.(received := sock2.received[Deliverable(sock2, v)..]);
    if !v.appAlive then Orphan(c1, sock3, now, limits) else Finish(c1, sock3)
  }

  /** One connection's turn, and the answer it gives its opener. */
  function ServiceConn(id: ConnId, c0: TcpConn, sock: Socket, v: View, now: nat, limits: Limits)
    : (r: (Serviced, Option<(RequestId, Answer)>))
    requires sock.TcpSocket?
    ensures r.0.Kept? ==> r.0.conn.handle == c0.handle && r.0.conn.halfClosed == c0.halfClosed && r.0.sock.TcpSocket?
    ensures r.0.Kept? ==>
        r.0.sock.sent + r.0.conn.pending == sock.sent + c0.pending && |r.0.conn.pending| <= |c0.pending|
    ensures r.0.Kept? ==> sock.sent <= r.0.sock.sent
  {
    if c0.aborted then (Removed, None)
    else
      var (c, answer) := Establish(id, c0, sock.phase);
      if c.established then (EstablishedTurn(c, sock, v, now, limits), answer)
      else if sock.phase == Closed || sock.phase == TimeWait then (Removed, Refuse(c, "connection refused"))
      else if c.responder.None? || v.abandoned || now >= c.deadline then (Removed, Refuse(c, "connection timed out"))
      else (Kept(c, sock), None)
  }

  function WithAnswer(s: NetState, answer: Option<(RequestId, Answer)>): NetState {
    if answer.Some? then s.(answers := s.answers + [answer.value]) else s
  }

  function AfterTurn(s: NetState, id: ConnId, turn: Serviced): NetState
    requires id in s.tcp
  {
    match turn
    case Removed => s.(tcp := s.tcp - {id}, sockets := s.sockets - {s.tcp[id].handle})
    case Kept(conn, sock) => s.(tcp := s.tcp[id := conn], sockets := s.sockets[s.tcp[id].handle := sock])
  }

  /** What a turn makes of a stack does not depend on what the turn's own connection and socket were. */
  lemma AfterTurnAbsorbs(s: NetState, id: ConnId, c: TcpConn, sock: Socket, turn: Serviced)
    requires id in s.tcp && c.handle == s.tcp[id].handle
    ensures AfterTurn(s.(tcp := s.tcp[id := c], sockets := s.sockets[c.handle := sock]), id, turn) ==
        AfterTurn(s, id, turn)
  {
    var h, other, otherSock := c.handle, if turn.Kept? then turn.conn else c, if turn.Kept? then turn.sock else sock;
    Overwrites(s.tcp, id, c, other);
    Overwrites(s.sockets, h, sock, otherSock);
  }

  lemma Overwrites<V>(m: map<nat, V>, k: nat, v: V, other: V)
    ensures m[k := v] - {k} == m - {k}
    ensures m[k := v][k := other] == m[k := other]
  {
  }

  /** One connection's turn, applied to the whole stack. */
  function ServiceOne(s: NetState, id: ConnId, v: View, now: nat, limits: Limits): NetState
    requires id in s.tcp ==> s.tcp[id].handle in s.sockets && s.sockets[s.tcp[id].handle].TcpSocket?
  {
    if id !in s.tcp then s
    else
      var handle := s.tcp[id].handle;
      var (turn, answer) := ServiceConn(id, s.tcp[id], s.sockets[handle], v, now, limits);
      WithAnswer(AfterTurn(s, id, turn), answer)
  }

  /** A UDP socket whose app is gone is dropped. */
  function ServiceUdpOne(s: NetState, id: ConnId, v: View): NetState {
    if id in s.udp && !v.appAlive then s.(udp := s.udp - {id}, sockets := s.sockets - {s.udp[id].handle}) else s
  }

  // ---------------------------------------------------------------- what every operation keeps

  /** Each connection owns its own socket of its own kind, and every socket has an owner. */
  ghost predicate Owned(s: NetState) {
    && (forall id :: id in s.tcp ==> s.tcp[id].handle in s.sockets && s.sockets[s.tcp[id].handle].TcpSocket?)
    && (forall id :: id in s.udp ==> s.udp[id].handle in s.sockets && s.sockets[s.udp[id].handle].UdpSocket?)
    && (forall a, b :: a in s.tcp && b in s.tcp && s.tcp[a].handle == s.tcp[b].handle ==> a == b)
    && (forall a, b :: a in s.udp && b in s.udp && s.udp[a].handle == s.udp[b].handle ==> a == b)
    && (forall h :: h in s.sockets ==> HasOwner(s, h))
  }

  predicate HasOwner(s: NetState, h: Handle) {
    (exists id :: id in s.tcp && s.tcp[id].handle == h) || (exists id :: id in s.udp && s.udp[id].handle == h)
  }

  /** An unestablished connection still holds its responder, an established one does not; ids are used once. */
  ghost predicate Sane(s: NetState, limits: Limits) {
    && (forall id :: id in s.tcp ==> id < s.nextId && SaneConn(s.tcp[id]) && |s.tcp[id].pending| <= limits.maxPending)
    && (forall id :: id in s.udp ==> id < s.nextId)
  }

  predicate SaneConn(c: TcpConn) {
    (c.established <==> c.responder.None?) && (c.established <==> !c.hasReceiver) && (c.aborted ==> c.established)
  }

  ghost predicate Valid(s: NetState, limits: Limits) {
    Owned(s) && Sane(s, limits)
  }

  class NetStack {
    var sockets: map<Handle, Socket>
    var tcpConns: map<ConnId, TcpConn>
    var udpConns: map<ConnId, UdpConn>
    var nextId: nat
    var nextPort: nat
    var answers: seq<(RequestId, Answer)>

    function State(): NetState
      reads this
    {
      NetState(sockets, tcpConns, udpConns, nextId, nextPort, answers)
    }

    constructor ()
      ensures State() == NetState(map[], map[], map[], 1, FIRST_PORT, [])
    {
      sockets, tcpConns, udpConns := map[], map[], map[];
      nextId, nextPort, answers := 1, FIRST_PORT, [];
    }

    /** Takes one item from the app into the stack; a TCP item that does not fit comes back with what is left. */
    method TryHandleData(d: DataIn, maxPending: nat) returns (back: Option<DataIn>)
      modifies this
      ensures (State(), back) == HandleData(old(State()), d, maxPending)
    {
      match d {
        case Tcp(id, data) =>
          if id in tcpConns {
            var st := tcpConns[id];
            if |st.pending| >= maxPending {
              return Some(d);
            }
            var space := maxPending - |st.pending|;
            if |data| <= space {
              tcpConns := tcpConns[id := st.(pending := st.pending + data)];
            } else {
              tcpConns := tcpConns[id := st.(pending := st.pending + data[..space])];
              return Some(Tcp(id, data[space..]));
            }
          }
        case TcpClose(id) =>
          if id in tcpConns {
            tcpConns := tcpConns[id := tcpConns[id].(halfClosed := true)];
          }
        case Udp(id, data) =>
        case UdpClose(id) =>
          if id in udpConns {
            sockets := sockets - {udpConns[id].handle};
            udpConns := udpConns - {id};
          }
      }
      return None;
    }

    /** Opens a TCP connection; `connects` is the library's verdict and `handle` where it put the socket. */
    method OpenTcpConnection(request: RequestId, connects: bool, handle: Handle, now: nat, limits: Limits)
      requires handle !in sockets
      modifies this
      ensures State() == OpenTcp(old(State()), request, connects, handle, now, limits)
    {
      var (port, next) := AllocPort(nextPort);
      nextPort := next;
      if !connects {
        answers := answers + [(request, Failed("connect"))];
        return;
      }
      sockets := sockets[handle := TcpSocket(SynSent, [], [], None)];
      var id := nextId;
      nextId := nextId + 1;
      tcpConns := tcpConns[id := NewConn(handle, request, now + limits.connect)];
    }

    method OpenUdpConnection(request: RequestId, binds: bool, handle: Handle)
      requires handle !in sockets
      modifies this
      ensures State() == OpenUdp(old(State()), request, binds, handle)
    {
      var (port, next) := AllocPort(nextPort);
      nextPort := next;
      if !binds {
        answers := answers + [(request, Failed("bind"))];
        return;
      }
      sockets := sockets[handle := UdpSocket];
      var id := nextId;
      nextId := nextId + 1;
      udpConns := udpConns[id := UdpConn(handle)];
      answers := answers + [(request, Connected(id))];
    }

    /** A UDP socket's turn, as far as ownership goes: it goes when its app has gone. */
    method ServiceUdpConnection(id: ConnId, v: View)
      modifies this`udpConns, this`sockets
      ensures State() == ServiceUdpOne(old(State()), id, v)
    {
      if id in udpConns && !v.appAlive {
        sockets := sockets - {udpConns[id].handle};
        udpConns := udpConns - {id};
      }
    }

    /** The app's share of what one connection received, chunk by chunk while there is room for it. */
    method ReceiveInto(handle: Handle, v: View) returns (delivered: seq<seq<byte>>, backpressured: bool, appGone: bool)
      requires handle in sockets && sockets[handle].TcpSocket?
      modifies this`sockets
      ensures var sock, n := old(sockets)[handle], Deliverable(old(sockets)[handle], v);
              && delivered == sock.received[..n]
              && sockets == old(sockets)[handle := sock.(received := sock.received[n..])]
      ensures appGone <==> !v.appAlive
      ensures backpressured <==> v.appAlive && |delivered| == v.slots < MAX_RECV_CHUNKS
    {
      var all := sockets[handle].received;
      ghost var before := sockets;
      delivered, backpressured, appGone := [], false, false;
      assert all[0..] == all;
      assert before[handle := before[handle].(received := all)] == before;
      var n := 0;
      while n < MAX_RECV_CHUNKS
        invariant n <= Deliverable(before[handle], v) && delivered == all[..n]
        invariant !backpressured && !appGone
        invariant sockets == before[handle := before[handle].(received := all[n..])]
      {
        if !v.appAlive {
          appGone := true;
          break;
        }
        if n >= v.slots {
          backpressured := true;
          break;
        }
        if sockets[handle].received == [] {
          break;
        }
        delivered := delivered + [sockets[handle].received[0]];
        sockets := sockets[handle := sockets[handle].(received := sockets[handle].received[1..])];
        n := n + 1;
        assert all[n - 1..][1..] == all[n..];
      }
    }

    method Respond(answer: Option<(RequestId, Answer)>)
      modifies this`answers
      ensures answers == if answer.Some? then old(answers) + [answer.value] else old(answers)
    {
      if answer.Some? {
        answers := answers + [answer.value];
      }
    }

    method Remove(id: ConnId)
      requires id in tcpConns
      modifies this`tcpConns, this`sockets
      ensures tcpConns == old(tcpConns) - {id} && sockets == old(sockets) - {old(tcpConns)[id].handle}
    {
      sockets := sockets - {tcpConns[id].handle};
      tcpConns := tcpConns - {id};
    }

    method Close(handle: Handle, cause: Cause)
      requires handle in sockets && sockets[handle].TcpSocket?
      modifies this`sockets
      ensures sockets == old(sockets)[handle := CloseSocket(old(sockets)[handle], cause)]
    {
      var sock := sockets[handle];
      if sock.closedFor.None? {
        sock := sock.(closedFor := Some(cause));
      }
      sockets := sockets[handle := sock.(phase := ClosedPhase(sock.phase))];
    }

    /** The last checks of one connection's turn. */
    method FinishTurn(id: ConnId)
      requires id in tcpConns && tcpConns[id].handle in sockets && sockets[tcpConns[id].handle].TcpSocket?
      modifies this`tcpConns, this`sockets
      ensures State() == AfterTurn(old(State()), id, Finish(old(tcpConns)[id], old(sockets)[old(tcpConns)[id].handle]))
    {
      var handle := tcpConns[id].handle;
      var phase := sockets[handle].phase;
      if phase == CloseWait {
        Close(handle, PeerFinished);
      }
      if phase == TimeWait {
        tcpConns := tcpConns[id := tcpConns[id].(pending := [])];
      }
      if phase == Closed || phase == TimeWait {
        Remove(id);
      } else {
        assert phase != CloseWait ==> sockets == sockets[handle := sockets[handle]];
        assert tcpConns == tcpConns[id := tcpConns[id]];
      }
    }

    /** One connection's turn. */
    method ServiceConnection(id: ConnId, v: View, now: nat, limits: Limits) returns (backpressured: bool)
      requires id in tcpConns && tcpConns[id].handle in sockets && sockets[tcpConns[id].handle].TcpSocket?
      modifies this`tcpConns, this`sockets, this`answers
      ensures State() == ServiceOne(old(State()), id, v, now, limits)
    {
      hide EstablishedTurn, HasOwner;
      backpressured := false;
      ghost var c0 := tcpConns[id];
      var handle := tcpConns[id].handle;
      if tcpConns[id].aborted {
        Remove(id);
        return;
      }
      var phase := sockets[handle].phase;
      ghost var (c, answer) := Establish(id, c0, phase);
      if !tcpConns[id].established && (phase == Established || phase == CloseWait) {
        var st := tcpConns[id];
        tcpConns := tcpConns[id := st.(established := true, responder := None, hasReceiver := false)];
        if st.responder.Some? && st.hasReceiver {
          Respond(Some((st.responder.value, Connected(id))));
        }
      }
      assert tcpConns == old(tcpConns)[id := c];
      if !tcpConns[id].established {
        assert tcpConns == old(tcpConns);
        TakeConnectingTurn(id, v, now, limits);
        return;
      }
      ghost var sock := sockets[handle];
      assert old(sockets) == old(sockets)[handle := sock];
      AfterTurnAbsorbs(WithAnswer(old(State()), answer), id, c, sock, EstablishedTurn(c, sock, v, now, limits));
      backpressured := TakeEstablishedTurn(id, v, now, limits);
    }

    /** The turn of a connection that is not up: refused, given up, or left to go on. */
    method TakeConnectingTurn(id: ConnId, v: View, now: nat, limits: Limits)
      requires id in tcpConns && tcpConns[id].handle in sockets && sockets[tcpConns[id].handle].TcpSocket?
      requires !tcpConns[id].aborted && !tcpConns[id].established
      requires sockets[tcpConns[id].handle].phase != Established && sockets[tcpConns[id].handle].phase != CloseWait
      modifies this`tcpConns, this`sockets, this`answers
      ensures State() == ServiceOne(old(State()), id, v, now, limits)
    {
      hide EstablishedTurn, HasOwner;
      var st, handle := tcpConns[id], tcpConns[id].handle;
      var phase := sockets[handle].phase;
      if phase == Closed || phase == TimeWait {
        Respond(Refuse(st, "connection refused"));
        Remove(id);
      } else if st.responder.None? || v.abandoned || now >= st.deadline {
        Respond(Refuse(st, "connection timed out"));
        Remove(id);
      } else {
        assert tcpConns == tcpConns[id := st] && sockets == sockets[handle := sockets[handle]];
      }
    }

    /** The rest of the turn of a connection that is up. */
    method TakeEstablishedTurn(id: ConnId, v: View, now: nat, limits: Limits) returns (backpressured: bool)
      requires id in tcpConns && tcpConns[id].handle in sockets && sockets[tcpConns[id].handle].TcpSocket?
      modifies this`tcpConns, this`sockets
      ensures var c, sock := old(tcpConns)[id], old(sockets)[old(tcpConns)[id].handle];
              State() == AfterTurn(old(State()), id, EstablishedTurn(c, sock, v, now, limits))
    {
      hide Finish, CloseSocket, SendPending, Deliverable, Orphan, AfterTurn;
      var handle := tcpConns[id].handle;
      ghost var s0 := sockets;
      ghost var (c1, sock1) := SendPending(tcpConns[id], sockets[handle], v.room);
      Flush(id, v.room);
      if tcpConns[id].halfClosed && tcpConns[id].pending == [] {
        Close(handle, AppFinished);
      }
      ghost var sock2 := sockets[handle];
      var delivered, full, appGone := ReceiveInto(handle, v);
      backpressured := full;
      ghost var sock3 := sockets[handle];
      assert tcpConns == old(tcpConns)[id := c1] && sockets == s0[handle := sock3];
      ghost var turn := if appGone then Orphan(c1, sock3, now, limits) else Finish(c1, sock3);
      AfterTurnAbsorbs(old(State()), id, c1, sock3, turn);
      if appGone {
        TakeOrphanTurn(id, now, limits);
      } else {
        FinishTurn(id);
      }
    }

    /** The end of the turn of a connection whose app dropped its receiver. */
    method TakeOrphanTurn(id: ConnId, now: nat, limits: Limits)
      requires id in tcpConns && tcpConns[id].handle in sockets && sockets[tcpConns[id].handle].TcpSocket?
      modifies this`tcpConns, this`sockets
      ensures var c, sock := old(tcpConns)[id], old(sockets)[old(tcpConns)[id].handle];
              State() == AfterTurn(old(State()), id, Orphan(c, sock, now, limits))
    {
      hide Finish, CloseSocket, AbortSocket;
      var handle, st := tcpConns[id].handle, tcpConns[id];
      var since := if st.orphanedAt.Some? then st.orphanedAt.value else now;
      ghost var before := State();
      tcpConns := tcpConns[id := st.(orphanedAt := Some(since))];
      if sockets[handle].received != [] || now >= since + limits.orphanLinger {
        ghost var c, sock := tcpConns[id], sockets[handle];
        Abort(id);
        AfterTurnAbsorbs(before, id, c, sock, Kept(c.(aborted := true), AbortSocket(sock)));
        assert before.sockets == before.sockets[handle := sock];
        return;
      }
      Close(handle, AppGone);
      ghost var c, sock := tcpConns[id], sockets[handle];
      AfterTurnAbsorbs(before, id, c, sock, Finish(c, sock));
      FinishTurn(id);
    }

    method Abort(id: ConnId)
      requires id in tcpConns && tcpConns[id].handle in sockets && sockets[tcpConns[id].handle].TcpSocket?
      modifies this`tcpConns, this`sockets
      ensures tcpConns == old(tcpConns)[id := old(tcpConns)[id].(aborted := true)]
      ensures var h := old(tcpConns)[id].handle; sockets == old(sockets)[h := AbortSocket(old(sockets)[h])]
    {
      var handle := tcpConns[id].handle;
      if sockets[handle].phase != Closed {
        sockets := sockets[handle := AbortSocket(sockets[handle])];
      } else {
        assert sockets == sockets[handle := sockets[handle]];
      }
      tcpConns := tcpConns[id := tcpConns[id].(aborted := true)];
    }

    /** Hands the socket what it takes of the bytes waiting for it. */
    method Flush(id: ConnId, room: nat)
      requires id in tcpConns && tcpConns[id].handle in sockets && sockets[tcpConns[id].handle].TcpSocket?
      modifies this`tcpConns, this`sockets
      ensures var h := old(tcpConns)[id].handle;
              var (c, sock) := SendPending(old(tcpConns)[id], old(sockets)[h], room);
              tcpConns == old(tcpConns)[id := c] && sockets == old(sockets)[h := sock]
    {
      var st := tcpConns[id];
      var sock := sockets[st.handle];
      ghost var (c, after) := SendPending(st, sock, room);
      var sent := 0;
      if (sock.phase == Established || sock.phase == CloseWait) && room > 0 && st.pending != [] {
        sent := Min(room, |st.pending|);
      }
      assert st.pending[..0] == [] && sock.sent + [] == sock.sent;
      sockets := sockets[st.handle := sock.(sent := sock.sent + st.pending[..sent])];
      tcpConns := tcpConns[id := st.(pending := st.pending[sent..])];
      assert tcpConns[id] == c && sockets[st.handle] == after;
    }

    /** Every connection's turn, in whatever order the map yields them. */
    method ServiceTcp(views: map<ConnId, View>, now: nat, limits: Limits)
      returns (backpressured: bool, order: seq<ConnId>)
      requires Owned(State()) && tcpConns.Keys <= views.Keys
      modifies this`tcpConns, this`sockets, this`answers
      ensures IsOrderOf(order, old(tcpConns).Keys)
      ensures State() == ServiceAll(old(State()), order, views, now, limits)
    {
      hide *;
      var todo := tcpConns.Keys;
      ghost var before, all := State(), tcpConns.Keys;
      backpressured, order := false, [];
      NoIds();
      ServiceAllNothing(before, views, now, limits);
      StateFields();
      assert all - todo == {};
      while todo != {}
        invariant IsOrderOf(order, all - todo) && todo <= all <= views.Keys
        invariant Owned(State()) && todo <= State().tcp.Keys
        invariant State() == ServiceAll(before, order, views, now, limits)
        decreases todo
      {
        var id :| id in todo;
        ghost var s := State();
        assert s.tcp == tcpConns && s.sockets == sockets by { StateFields(); }
        OneMoreId(order, all - todo, id);
        OwnedSocket(s, id);
        ServiceOneOwned(s, id, views[id], now, limits);
        ServiceAllStep(before, order, id, views, now, limits);
        var full := ServiceConnection(id, views[id], now, limits);
        backpressured := backpressured || full;
        assert (all - todo) + {id} == all - (todo - {id});
        order, todo := order + [id], todo - {id};
      }
      assert all - todo == all;
    }

    lemma StateFields()
      ensures State().tcp == tcpConns && State().sockets == sockets
    {
    }
  }

  lemma NoIds()
    ensures IsOrderOf([], {})
  {
  }

  lemma ServiceAllNothing(s: NetState, views: map<ConnId, View>, now: nat, limits: Limits)
    ensures ServiceAll(s, [], views, now, limits) == s
  {
  }

  ghost predicate IsOrderOf(order: seq<ConnId>, ids: set<ConnId>) {
    && (forall id :: id in order <==> id in ids)
    && (forall i, j :: 0 <= i < j < |order| ==> order[i] != order[j])
  }

  lemma OneMoreId(order: seq<ConnId>, ids: set<ConnId>, id: ConnId)
    requires IsOrderOf(order, ids) && id !in ids
    ensures IsOrderOf(order + [id], ids + {id})
  {
  }

  /** Turns taken one after another; a turn without a view is skipped. */
  function ServiceAll(s: NetState, order: seq<ConnId>, views: map<ConnId, View>, now: nat, limits: Limits): NetState {
    if order == [] then s
    else
      var s' := ServiceAll(s, order[..|order| - 1], views, now, limits);
      var id := order[|order| - 1];
      if id in s'.tcp && id in views && s'.tcp[id].handle in s'.sockets && s'.sockets[s'.tcp[id].handle].TcpSocket? then
        ServiceOne(s', id, views[id], now, limits)
      else s'
  }

  /** A socket keeps its owner when another connection is dropped or any is changed on its own socket. */
  lemma StillOwned(s: NetState, s': NetState, h: Handle)
    requires HasOwner(s, h)
    requires forall id :: id in s.udp && s.udp[id].handle == h ==> id in s'.udp && s'.udp[id].handle == h
    requires forall id :: id in s.tcp && s.tcp[id].handle == h ==> id in s'.tcp && s'.tcp[id].handle == h
    ensures HasOwner(s', h)
  {
    if exists u :: u in s.udp && s.udp[u].handle == h {
      var u :| u in s.udp && s.udp[u].handle == h;
      assert u in s'.udp && s'.udp[u].handle == h;
    } else {
      var t :| t in s.tcp && s.tcp[t].handle == h;
      assert t in s'.tcp && s'.tcp[t].handle == h;
    }
  }

  /** Dropping a connection with its socket leaves no other without an owner. */
  lemma RemoveTcpOwned(s: NetState, id: ConnId, s': NetState)
    requires Owned(s) && id in s.tcp
    requires s'.tcp == s.tcp - {id} && s'.sockets == s.sockets - {s.tcp[id].handle} && s'.udp == s.udp
    ensures Owned(s')
  {
    hide HasOwner;
    forall h | h in s'.sockets
      ensures HasOwner(s', h)
    {
      StillOwned(s, s', h);
    }
  }

  /** Changing a connection in place, on the same socket, moves no ownership. */
  lemma ReplaceTcpOwned(s: NetState, id: ConnId, c: TcpConn, sock: Socket, s': NetState)
    requires Owned(s) && id in s.tcp && c.handle == s.tcp[id].handle && sock.TcpSocket?
    requires s'.tcp == s.tcp[id := c] && s'.sockets == s.sockets[c.handle := sock] && s'.udp == s.udp
    ensures Owned(s')
  {
    hide HasOwner;
    forall h | h in s'.sockets
      ensures HasOwner(s', h)
    {
      StillOwned(s, s', h);
    }
  }

  /** A turn leaves ownership intact, and other connections where they were. */
  lemma ServiceOneOwned(s: NetState, id: ConnId, v: View, now: nat, limits: Limits)
    requires Owned(s) && id in s.tcp
    ensures Owned(ServiceOne(s, id, v, now, limits))
    ensures s.tcp.Keys - {id} <= ServiceOne(s, id, v, now, limits).tcp.Keys <= s.tcp.Keys
  {
    assert id in s.tcp && s.tcp[id].handle in s.sockets && s.sockets[s.tcp[id].handle].TcpSocket?;
    hide ServiceConn, Owned;
    var s' := ServiceOne(s, id, v, now, limits);
    var turn := ServiceConn(id, s.tcp[id], s.sockets[s.tcp[id].handle], v, now, limits).0;
    match turn {
      case Removed => RemoveTcpOwned(s, id, s');
      case Kept(c, sock) => ReplaceTcpOwned(s, id, c, sock, s');
    }
  }

  lemma OwnedSocket(s: NetState, id: ConnId)
    requires Owned(s) && id in s.tcp
    ensures s.tcp[id].handle in s.sockets && s.sockets[s.tcp[id].handle].TcpSocket?
  {
  }

  lemma ServiceAllStep(s: NetState, order: seq<ConnId>, id: ConnId, views: map<ConnId, View>, now: nat, limits: Limits)
    requires var s' := ServiceAll(s, order, views, now, limits);
             id in s'.tcp && id in views && s'.tcp[id].handle in s'.sockets && s'.sockets[s'.tcp[id].handle].TcpSocket?
    ensures ServiceAll(s, order + [id], views, now, limits) ==
              ServiceOne(ServiceAll(s, order, views, now, limits), id, views[id], now, limits)
  {
    hide ServiceOne;
    assert (order + [id])[..|order|] == order;
  }

  /** The event loop's own queues: what the app sent, and the item that did not fit. */
  class EventLoop {
    const stack: NetStack
    var deferred: seq<DataIn>
    var queue: seq<DataIn>

    constructor (stack: NetStack)
      ensures this.stack == stack && deferred == [] && queue == []
    {
      this.stack, deferred, queue := stack, [], [];
    }

    /** Retries what was deferred, until something does not fit again. */
    method RetryDeferred(maxPending: nat)
      modifies this`deferred, stack
      ensures (stack.State(), deferred) == Process(old(stack.State()), old(deferred), maxPending)
    {
      while deferred != []
        invariant Process(stack.State(), deferred, maxPending) == Process(old(stack.State()), old(deferred), maxPending)
        decreases |deferred|
      {
        var d := deferred[0];
        deferred := deferred[1..];
        var back := stack.TryHandleData(d, maxPending);
        if back.Some? {
          deferred := [back.value] + deferred;
          break;
        }
      }
    }

    /** Takes from the app's queue, which is read only while nothing is deferred. */
    method TakeData(maxPending: nat)
      requires deferred == []
      modifies this`deferred, this`queue, stack
      ensures (stack.State(), deferred + queue) == Process(old(stack.State()), old(queue), maxPending)
      ensures |deferred| <= 1 && (deferred == [] ==> queue == [])
    {
      while queue != [] && deferred == []
        invariant |deferred| <= 1
        invariant deferred == [] ==>
                    Process(stack.State(), queue, maxPending) == Process(old(stack.State()), old(queue), maxPending)
        invariant deferred != [] ==>
                    (stack.State(), deferred + queue) == Process(old(stack.State()), old(queue), maxPending)
        decreases |queue|
      {
        var d := queue[0];
        queue := queue[1..];
        var back := stack.TryHandleData(d, maxPending);
        if back.Some? {
          deferred := [back.value];
        }
      }
      assert deferred == [] ==> deferred + queue == [];
    }
  }

  // ---------------------------------------------------------------- local ports

  /** The port handed out `n` allocations after `first`. */
  function PortAfter(first: nat, n: nat): nat {
    if n == 0 then first else AllocPort(PortAfter(first, n - 1)).1
  }

  lemma {:induction false} PortCycle(first: nat, n: nat)
    requires FIRST_PORT <= first <= LAST_PORT
    ensures PortAfter(first, n) == FIRST_PORT + (first - FIRST_PORT + n) % (LAST_PORT - FIRST_PORT + 1)
  {
    if n > 0 {
      PortCycle(first, n - 1);
    }
  }

  /** Two allocations get the same port exactly when a whole number of cycles of 15849 lies between them. */
  lemma PortReuse(first: nat, a: nat, b: nat)
    requires FIRST_PORT <= first <= LAST_PORT && a <= b
    ensures PortAfter(first, a) == PortAfter(first, b) <==> (b - a) % 15849 == 0
  {
    hide PortAfter;
    PortCycle(first, a);
    PortCycle(first, b);
    SameResidue(first - FIRST_PORT + a, first - FIRST_PORT + b);
  }

  lemma SameResidue(x: nat, y: nat)
    requires x <= y
    ensures x % 15849 == y % 15849 <==> (y - x) % 15849 == 0
  {
    var qx, qy := x / 15849, y / 15849;
    assert y - x == 15849 * (qy - qx) + (y % 15849 - x % 15849);
  }
}
