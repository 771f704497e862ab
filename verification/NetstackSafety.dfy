/**
 What every run of the network stack keeps: the app's bytes reach each socket in order and none is
 lost, a socket is closed for the app only behind all of them, each socket has exactly one owner, and
 each opener is answered exactly once.
 */
module NetstackSafety {
  import opened Wrappers
  import opened Varint
  import opened Netstack

  /** The stack, what is on its way to it from the app, and the history the claims are about. */
  datatype System = System(
    net: NetState,
    deferred: seq<DataIn>,
    queue: seq<DataIn>,
    sentBy: map<ConnId, seq<byte>>,     // every byte the app sent on a connection
    mark: map<ConnId, seq<byte>>,       // what it had sent when it first closed
    requested: set<RequestId>)             // every request to open a connection

  const START := System(NetState(map[], map[], map[], 1, FIRST_PORT, []), [], [], map[], map[], {})

  function Backlog(s: System): seq<DataIn> {
    s.deferred + s.queue
  }

  function SentBy(s: System, id: ConnId): seq<byte> {
    if id in s.sentBy then s.sentBy[id] else []
  }

  /** One item's bytes for one connection. */
  function Chunk(d: DataIn, id: ConnId): seq<byte> {
    if d.Tcp? && d.id == id then d.data else []
  }

  /** The bytes for one connection among items on their way, in order. */
  function BytesFor(items: seq<DataIn>, id: ConnId): seq<byte> {
    if items == [] then [] else Chunk(items[0], id) + BytesFor(items[1..], id)
  }

  function Behind(bytes: seq<byte>, later: Option<seq<byte>>): Option<seq<byte>> {
    match later
    case None => None
    case Some(more) => Some(bytes + more)
  }

  /** The bytes for a connection ahead of its first close, if a close is on its way. */
  function BeforeClose(items: seq<DataIn>, id: ConnId): Option<seq<byte>> {
    if items == [] then None
    else if items[0] == TcpClose(id) then Some([])
    else Behind(Chunk(items[0], id), BeforeClose(items[1..], id))
  }

  // ---------------------------------------------------------------- actions

  datatype Action =
    /** The library processed packets: sockets move between phases and receive. */
    | Poll(now: map<Handle, Socket>)
    | TcpTurn(id: ConnId, view: View, clock: nat)
    | UdpTurn(id: ConnId, view: View)
    | RetryDeferred
    | TakeData
    | OpenTcpConn(request: RequestId, connects: bool, handle: Handle, clock: nat)
    | OpenUdpConn(request: RequestId, binds: bool, handle: Handle)
    | AppSends(id: ConnId, data: seq<byte>)
    | AppCloses(id: ConnId)
    | AppUdp(item: DataIn)

  /** Sockets after the library ran: their owners' bytes are untouched. */
  ghost predicate PollKeeps(before: map<Handle, Socket>, after: map<Handle, Socket>) {
    && after.Keys == before.Keys
    && forall h :: h in before ==>
         && (before[h].TcpSocket? <==> after[h].TcpSocket?)
         && (before[h].TcpSocket? ==> after[h].sent == before[h].sent && after[h].closedFor == before[h].closedFor)
  }

  ghost predicate Acts(s: System, a: Action, s': System, limits: Limits) {
    match a
    case Poll(now) => PollKeeps(s.net.sockets, now) && s' == s.(net := s.net.(sockets := now))
    case TcpTurn(id, view, clock) =>
      && id in s.net.tcp && s.net.tcp[id].handle in s.net.sockets && s.net.sockets[s.net.tcp[id].handle].TcpSocket?
      && s' == s.(net := ServiceOne(s.net, id, view, clock, limits))
    case UdpTurn(id, view) => s' == s.(net := ServiceUdpOne(s.net, id, view))
    case RetryDeferred =>
      var (net, left) := Process(s.net, s.deferred, limits.maxPending);
      s' == s.(net := net, deferred := left)
    case TakeData =>
      var (net, left) := Process(s.net, s.queue, limits.maxPending);
      s.deferred == [] && s'.deferred + s'.queue == left && |s'.deferred| <= 1
      && s' == s.(net := net, deferred := s'.deferred, queue := s'.queue)
    case OpenTcpConn(request, connects, handle, clock) =>
      && request !in s.requested && handle !in s.net.sockets
      && s' == s.(net := OpenTcp(s.net, request, connects, handle, clock, limits), requested := s.requested + {request})
    case OpenUdpConn(request, binds, handle) =>
      && request !in s.requested && handle !in s.net.sockets
      && s' == s.(net := OpenUdp(s.net, request, binds, handle), requested := s.requested + {request})
    case AppSends(id, data) =>
      && id < s.net.nextId
      && s' == s.(queue := s.queue + [Tcp(id, data)], sentBy := s.sentBy[id := SentBy(s, id) + data])
    case AppCloses(id) =>
      && id < s.net.nextId
      && s' == s.(queue := s.queue + [TcpClose(id)],
                  mark := if id in s.mark then s.mark else s.mark[id := SentBy(s, id)])
    case AppUdp(item) => (item.Udp? || item.UdpClose?) && s' == s.(queue := s.queue + [item])
  }

  // ---------------------------------------------------------------- the invariant

  /** Nothing is on its way, or was ever sent, on a connection that does not exist yet. */
  ghost predicate NoneFromTheFuture(s: System) {
    && (forall id :: id in s.sentBy ==> id < s.net.nextId)
    && (forall id :: id in s.mark ==> id < s.net.nextId)
    && Known(Backlog(s), s.net.nextId)
  }

  ghost predicate Known(items: seq<DataIn>, nextId: nat) {
    forall i :: 0 <= i < |items| ==> (items[i].Tcp? || items[i].TcpClose? ==> items[i].id < nextId)
  }

  /** Handed over, waiting, deferred and queued: together exactly what the app sent, in order. */
  predicate Conserved(c: TcpConn, sock: Socket, items: seq<DataIn>, id: ConnId, sent: seq<byte>)
    requires sock.TcpSocket?
  {
    sock.sent + c.pending + BytesFor(items, id) == sent
  }

  /** The app's first close is behind everything it had sent by then, on its way or arrived. */
  predicate CloseInOrder(c: TcpConn, sock: Socket, items: seq<DataIn>, id: ConnId, mark: Option<seq<byte>>)
    requires sock.TcpSocket?
  {
    match mark
    case None => !c.halfClosed && BeforeClose(items, id).None?
    case Some(m) =>
      || (c.halfClosed && m <= sock.sent + c.pending)
      || (!c.halfClosed && BeforeClose(items, id).Some? && sock.sent + c.pending + BeforeClose(items, id).value == m)
  }

  /** A socket closed because the app finished has been handed everything sent before the app's close. */
  predicate ClosedBehindData(sock: Socket, mark: Option<seq<byte>>)
    requires sock.TcpSocket?
  {
    sock.closedFor == Some(AppFinished) ==> mark.Some? && mark.value <= sock.sent
  }

  function MarkOf(s: System, id: ConnId): Option<seq<byte>> {
    if id in s.mark then Some(s.mark[id]) else None
  }

  /** What is claimed of one connection and its socket. */
  predicate Flows(c: TcpConn, sock: Socket, items: seq<DataIn>, id: ConnId, sent: seq<byte>, mark: Option<seq<byte>>)
    requires sock.TcpSocket?
  {
    Conserved(c, sock, items, id, sent) && CloseInOrder(c, sock, items, id, mark) && ClosedBehindData(sock, mark)
  }

  ghost predicate NetFlows(s: System, net: NetState, items: seq<DataIn>) {
    forall id :: id in net.tcp ==>
      && net.tcp[id].handle in net.sockets && net.sockets[net.tcp[id].handle].TcpSocket?
      && Flows(net.tcp[id], net.sockets[net.tcp[id].handle], items, id, SentBy(s, id), MarkOf(s, id))
  }

  ghost predicate AllFlow(s: System) {
    NetFlows(s, s.net, Backlog(s))
  }

  /** How many times a request was answered. */
  function Answers(log: seq<(RequestId, Answer)>, request: RequestId): nat {
    if log == [] then 0
    else Answers(log[..|log| - 1], request) + if log[|log| - 1].0 == request then 1 else 0
  }

  predicate Waits(net: NetState, request: RequestId) {
    exists id :: id in net.tcp && net.tcp[id].responder == Some(request)
  }

  /** No two connections hold the same responder. */
  ghost predicate OneEach(net: NetState) {
    forall a, b ::
      a in net.tcp && b in net.tcp && net.tcp[a].responder.Some? && net.tcp[a].responder == net.tcp[b].responder ==>
          a == b
  }

  /** Every request ever made is answered exactly once, or is held by exactly one connection and not answered. */
  ghost predicate AnsweredOnce(s: System) {
    && (forall r :: Answers(s.net.answers, r) == if r in s.requested && !Waits(s.net, r) then 1 else 0)
    && (forall id :: id in s.net.tcp && s.net.tcp[id].responder.Some? ==> s.net.tcp[id].responder.value in s.requested)
    && OneEach(s.net)
  }

  ghost predicate Inv(s: System, limits: Limits) {
    Valid(s.net, limits) && |s.deferred| <= 1 && NoneFromTheFuture(s) && AllFlow(s) && AnsweredOnce(s)
  }

  // ---------------------------------------------------------------- items on their way

  lemma {:induction false} BytesForAppend(items: seq<DataIn>, d: DataIn, id: ConnId)
    ensures BytesFor(items + [d], id) == BytesFor(items, id) + Chunk(d, id)
  {
    hide Chunk;
    if items == [] {
      assert items + [d] == [d];
      assert Chunk(d, id) + [] == Chunk(d, id) == [] + Chunk(d, id);
    } else {
      assert (items + [d])[1..] == items[1..] + [d];
      BytesForAppend(items[1..], d, id);
      assert Chunk(items[0], id) + (BytesFor(items[1..], id) + Chunk(d, id)) == BytesFor(items, id) + Chunk(d, id);
    }
  }

  lemma {:induction false} BeforeCloseAppend(items: seq<DataIn>, d: DataIn, id: ConnId)
    ensures BeforeClose(items, id).Some? ==> BeforeClose(items + [d], id) == BeforeClose(items, id)
    ensures BeforeClose(items, id).None? ==>
              BeforeClose(items + [d], id) == if d == TcpClose(id) then Some(BytesFor(items, id)) else None
  {
    hide Chunk;
    if items == [] {
      assert items + [d] == [d];
    } else {
      assert (items + [d])[1..] == items[1..] + [d];
      BeforeCloseAppend(items[1..], d, id);
    }
  }

  lemma {:induction false} NothingForTheFuture(items: seq<DataIn>, id: ConnId)
    requires Known(items, id)
    ensures BytesFor(items, id) == [] && BeforeClose(items, id).None?
  {
    if items != [] {
      NothingForTheFuture(items[1..], id);
    }
  }

  /** What is left of the items after the first has been handled. */
  function AfterHead(items: seq<DataIn>, back: Option<DataIn>): seq<DataIn>
    requires items != []
  {
    if back.Some? then [back.value] + items[1..] else items[1..]
  }

  /** Two stacks with the same answers and connections, but for the bytes waiting and who is done sending. */
  ghost predicate SameShape(net: NetState, net': NetState) {
    && net'.answers == net.answers && net'.nextId == net.nextId && net'.tcp.Keys == net.tcp.Keys
    && (forall id :: id in net.tcp ==>
          && net'.tcp[id] == net.tcp[id].(pending := net'.tcp[id].pending, halfClosed := net'.tcp[id].halfClosed)
          && net.tcp[id].handle in net.sockets && net.tcp[id].handle in net'.sockets
          && net'.sockets[net.tcp[id].handle] == net.sockets[net.tcp[id].handle])
  }

  lemma PendingKeepsShape(net: NetState, id: ConnId, c: TcpConn, limits: Limits)
    requires Valid(net, limits) && id in net.tcp
    requires c == net.tcp[id].(pending := c.pending, halfClosed := c.halfClosed) && |c.pending| <= limits.maxPending
    ensures var net' := net.(tcp := net.tcp[id := c]); Valid(net', limits) && SameShape(net, net')
  {
    hide HasOwner;
    var net' := net.(tcp := net.tcp[id := c]);
    KeepsSocket(net, id);
    ReplaceTcpOwned(net, id, c, net.sockets[c.handle], net');
  }

  lemma UdpGoneKeepsShape(net: NetState, id: ConnId, limits: Limits)
    requires Valid(net, limits) && id in net.udp
    ensures var net' := net.(udp := net.udp - {id}, sockets := net.sockets - {net.udp[id].handle});
            Valid(net', limits) && SameShape(net, net')
  {
    hide HasOwner;
    RemoveUdpOwned(net, id, net.(udp := net.udp - {id}, sockets := net.sockets - {net.udp[id].handle}));
  }

  /** Handling one item touches no socket's bytes, no responder and no answer. */
  lemma HandleKeepsShape(net: NetState, d: DataIn, limits: Limits)
    requires Valid(net, limits)
    ensures var (net', back) := HandleData(net, d, limits.maxPending);
            && Valid(net', limits) && SameShape(net, net')
            && (back.Some? ==> d.Tcp? && back.value.Tcp? && back.value.id == d.id)
  {
    hide Owned, Sane;
    SameShapeAsItself(net, limits);
    var (net', back) := HandleData(net, d, limits.maxPending);
    match d {
      case Tcp(id, _) => if id in net.tcp && net' != net { PendingKeepsShape(net, id, net'.tcp[id], limits); }
      case TcpClose(id) =>
        if id in net.tcp { PendingFits(net, id, limits); PendingKeepsShape(net, id, net'.tcp[id], limits); }
      case Udp(_, _) =>
      case UdpClose(id) => if id in net.udp { UdpGoneKeepsShape(net, id, limits); }
    }
  }

  lemma SameShapeAsItself(net: NetState, limits: Limits)
    requires Valid(net, limits)
    ensures SameShape(net, net)
  {
  }

  lemma PendingFits(net: NetState, id: ConnId, limits: Limits)
    requires Valid(net, limits) && id in net.tcp
    ensures |net.tcp[id].pending| <= limits.maxPending
  {
  }

  lemma KeepsSocket(net: NetState, id: ConnId)
    requires Owned(net) && id in net.tcp
    ensures net.sockets[net.tcp[id].handle := net.sockets[net.tcp[id].handle]] == net.sockets
  {
  }

  /** Dropping a UDP connection with its socket leaves no other without an owner. */
  lemma RemoveUdpOwned(net: NetState, id: ConnId, net': NetState)
    requires Owned(net) && id in net.udp
    requires net'.udp == net.udp - {id} && net'.sockets == net.sockets - {net.udp[id].handle} && net'.tcp == net.tcp
    ensures Owned(net')
  {
    hide HasOwner;
    forall h | h in net'.sockets
      ensures HasOwner(net', h)
    {
      StillOwned(net, net', h);
    }
  }

  /** Handling a connection's own data moves it from the item to the bytes waiting. */
  lemma HandleOwnData(net: NetState, id: ConnId, data: seq<byte>, max: nat)
    requires id in net.tcp
    ensures var (net', back) := HandleData(net, Tcp(id, data), max);
            && id in net'.tcp && net'.tcp[id].halfClosed == net.tcp[id].halfClosed
            && net'.tcp[id].pending + (if back.Some? then Chunk(back.value, id) else []) == net.tcp[id].pending + data
            && net.tcp[id].pending <= net'.tcp[id].pending
            && (back.Some? ==> back.value != TcpClose(id))
  {
    var pending := net.tcp[id].pending;
    if |pending| + |data| <= max {
      assert (pending + data) + [] == pending + data;
    } else if |pending| < max {
      var space := max - |pending|;
      assert pending + data == (pending + data[..space]) + data[space..];
    }
  }

  /** Bytes that moved from the head of the items to those waiting leave every total the same. */
  lemma OwnDataFlows(c: TcpConn, c': TcpConn, head: DataIn, back: Option<DataIn>, rest: seq<DataIn>, id: ConnId,
                     sock: Socket, sent: seq<byte>, mark: Option<seq<byte>>)
    requires sock.TcpSocket? && head.Tcp? && head.id == id && c'.halfClosed == c.halfClosed
    requires back.Some? ==> back.value != TcpClose(id)
    requires c'.pending + (if back.Some? then Chunk(back.value, id) else []) == c.pending + head.data &&
        c.pending <= c'.pending
    requires Flows(c, sock, [head] + rest, id, sent, mark)
    ensures Flows(c', sock, AfterHead([head] + rest, back), id, sent, mark)
  {
    var left := AfterHead([head] + rest, back);
    var chunk, more := if back.Some? then Chunk(back.value, id) else [], BytesFor(rest, id);
    HeadBytes(head, rest, id);
    if back.Some? { HeadBytes(back.value, rest, id); }
    assert BytesFor(left, id) == chunk + more by { assert [] + more == more; }
    assert BeforeClose(left, id) == Behind(chunk, BeforeClose(rest, id)) by { NothingInFront(BeforeClose(rest, id)); }
    Shift(sock.sent, c.pending, head.data, c'.pending, chunk, more);
    if BeforeClose(rest, id).Some? {
      Shift(sock.sent, c.pending, head.data, c'.pending, chunk, BeforeClose(rest, id).value);
    }
  }

  lemma HeadBytes(d: DataIn, rest: seq<DataIn>, id: ConnId)
    ensures ([d] + rest)[1..] == rest
    ensures BytesFor([d] + rest, id) == Chunk(d, id) + BytesFor(rest, id)
    ensures d != TcpClose(id) ==> BeforeClose([d] + rest, id) == Behind(Chunk(d, id), BeforeClose(rest, id))
    ensures d == TcpClose(id) ==> BeforeClose([d] + rest, id) == Some([])
  {
    assert ([d] + rest)[1..] == rest;
  }

  lemma NothingInFront(later: Option<seq<byte>>)
    ensures Behind([], later) == later
  {
    if later.Some? { assert [] + later.value == later.value; }
  }

  lemma Shift(a: seq<byte>, b: seq<byte>, x: seq<byte>, b': seq<byte>, x': seq<byte>, more: seq<byte>)
    requires b + x == b' + x'
    ensures a + b + (x + more) == a + b' + (x' + more)
    ensures b <= b' ==> a + b <= a + b'
  {
    assert a + b + (x + more) == a + (b + x) + more;
    assert a + b' + (x' + more) == a + (b' + x') + more;
    if b <= b' {
      assert a + b' == (a + b) + b'[|b|..];
    }
  }

  /** The app's close arrives: everything it sent before is handed over or waiting. */
  lemma OwnCloseFlows(c: TcpConn, rest: seq<DataIn>, id: ConnId, sock: Socket, sent: seq<byte>, mark: Option<seq<byte>>)
    requires sock.TcpSocket? && Flows(c, sock, [TcpClose(id)] + rest, id, sent, mark)
    ensures Flows(c.(halfClosed := true), sock, rest, id, sent, mark)
  {
    HeadBytes(TcpClose(id), rest, id);
    assert [] + BytesFor(rest, id) == BytesFor(rest, id);
    assert sock.sent + c.pending + [] == sock.sent + c.pending;
  }

  /** An item about something else changes nothing for this connection. */
  lemma OtherItemFlows(c: TcpConn, d: DataIn, back: Option<DataIn>, rest: seq<DataIn>, id: ConnId,
                       sock: Socket, sent: seq<byte>, mark: Option<seq<byte>>)
    requires sock.TcpSocket? && d != TcpClose(id) && !(d.Tcp? && d.id == id)
    requires back.Some? ==> back.value.Tcp? && back.value.id != id
    requires Flows(c, sock, [d] + rest, id, sent, mark)
    ensures Flows(c, sock, AfterHead([d] + rest, back), id, sent, mark)
  {
    HeadBytes(d, rest, id);
    if back.Some? { HeadBytes(back.value, rest, id); }
    NothingInFront(BeforeClose(rest, id));
    assert [] + BytesFor(rest, id) == BytesFor(rest, id);
  }

  /** Handling one item moves its bytes along and leaves every total the same. */
  lemma HandleFlows(net: NetState, items: seq<DataIn>, max: nat, id: ConnId, sock: Socket, sent: seq<byte>,
      mark: Option<seq<byte>>)
    requires items != [] && id in net.tcp && sock.TcpSocket?
    requires Flows(net.tcp[id], sock, items, id, sent, mark)
    ensures var (net', back) := HandleData(net, items[0], max);
            id in net'.tcp && Flows(net'.tcp[id], sock, AfterHead(items, back), id, sent, mark)
  {
    hide Flows;
    var d, rest := items[0], items[1..];
    assert items == [d] + rest;
    var (net', back) := HandleData(net, d, max);
    if d.Tcp? && d.id == id {
      HandleOwnData(net, id, d.data, max);
      OwnDataFlows(net.tcp[id], net'.tcp[id], d, back, rest, id, sock, sent, mark);
    } else if d == TcpClose(id) {
      OwnCloseFlows(net.tcp[id], rest, id, sock, sent, mark);
    } else {
      OtherItemFlows(net.tcp[id], d, back, rest, id, sock, sent, mark);
    }
  }

  // ---------------------------------------------------------------- one step

  /** What handling keeps of the claims that are not about bytes. */
  lemma ShapeKeepsAnswers(s: System, net: NetState)
    requires AnsweredOnce(s) && SameShape(s.net, net)
    ensures AnsweredOnce(s.(net := net))
  {
    hide Answers;
    forall r: RequestId
      ensures Waits(net, r) <==> Waits(s.net, r)
    {
      if Waits(s.net, r) {
        var id :| id in s.net.tcp && s.net.tcp[id].responder == Some(r);
        assert net.tcp[id].responder == Some(r);
      }
      if Waits(net, r) {
        var id :| id in net.tcp && net.tcp[id].responder == Some(r);
        assert s.net.tcp[id].responder == Some(r);
      }
    }
  }

  lemma ShapeIsTransitive(a: NetState, b: NetState, c: NetState)
    requires SameShape(a, b) && SameShape(b, c)
    ensures SameShape(a, c)
  {
  }

  lemma HeadFlows(s: System, net: NetState, items: seq<DataIn>, limits: Limits)
    requires items != [] && Valid(net, limits) && NetFlows(s, net, items) && Known(items, net.nextId)
    ensures var (net', back) := HandleData(net, items[0], limits.maxPending);
            && NetFlows(s, net', AfterHead(items, back)) && Known(AfterHead(items, back), net'.nextId)
            && Valid(net', limits) && SameShape(net, net')
  {
    hide HandleData, Flows, Valid;
    HandleKeepsShape(net, items[0], limits);
    var (net', back) := HandleData(net, items[0], limits.maxPending);
    forall id | id in net'.tcp
      ensures Flows(net'.tcp[id], net'.sockets[net'.tcp[id].handle], AfterHead(items, back), id, SentBy(s, id),
          MarkOf(s, id))
    {
      HandleFlows(net, items, limits.maxPending, id, net.sockets[net.tcp[id].handle], SentBy(s, id), MarkOf(s, id));
    }
  }

  /** Handling items one after another, with more behind them, keeps every claim. */
  lemma {:induction false} ProcessFlows(s: System, net: NetState, items: seq<DataIn>, more: seq<DataIn>, limits: Limits)
    requires Valid(net, limits) && NetFlows(s, net, items + more) && Known(items + more, net.nextId)
    ensures var (net', left) := Process(net, items, limits.maxPending);
            && Valid(net', limits) && NetFlows(s, net', left + more) && Known(left + more, net'.nextId)
            && SameShape(net, net') && |left| <= |items|
    decreases |items|
  {
    hide HandleData, Valid, NetFlows, Known, SameShape;
    if items == [] {
      AlreadySameShape(net, limits);
    } else {
      HeadFlows(s, net, items + more, limits);
      var (net', back) := HandleData(net, items[0], limits.maxPending);
      assert (items + more)[0] == items[0] && (items + more)[1..] == items[1..] + more;
      if back.Some? {
        assert [back.value] + (items[1..] + more) == ([back.value] + items[1..]) + more;
      } else {
        ProcessFlows(s, net', items[1..], more, limits);
        ShapeIsTransitive(net, net', Process(net', items[1..], limits.maxPending).0);
      }
    }
  }

  lemma AlreadySameShape(net: NetState, limits: Limits)
    requires Valid(net, limits)
    ensures SameShape(net, net)
  {
  }

  lemma DataStep(s: System, a: Action, s': System, limits: Limits)
    requires Inv(s, limits) && Acts(s, a, s', limits) && (a.RetryDeferred? || a.TakeData?)
    ensures Inv(s', limits)
  {
    hide Valid, Known, Process, AnsweredOnce, Flows;
    var items := if a.RetryDeferred? then s.deferred else s.queue;
    var more := if a.RetryDeferred? then s.queue else [];
    assert Backlog(s) == items + more;
    ProcessFlows(s, s.net, items, more, limits);
    ShapeKeepsAnswers(s, s'.net);
    var left := Process(s.net, items, limits.maxPending).1;
    assert left + [] == left;
    assert Backlog(s') == left + more;
    assert AnsweredOnce(s') by { SameAnswers(s.(net := s'.net), s'); }
  }

  lemma SameAnswers(s: System, s': System)
    requires AnsweredOnce(s) && s'.net == s.net && s'.requested == s.requested
    ensures AnsweredOnce(s')
  {
    hide Answers, Waits;
  }

  /** One more item from the app, with the history that goes with it, keeps every claim. */
  lemma JoinStep(s: System, d: DataIn, s': System, limits: Limits)
    requires Inv(s, limits) && s'.net == s.net && s'.deferred == s.deferred && s'.queue == s.queue + [d]
    requires s'.requested == s.requested
    requires d.Tcp? || d.TcpClose? ==> d.id < s.net.nextId
    requires s'.sentBy == if d.Tcp? then s.sentBy[d.id := SentBy(s, d.id) + d.data] else s.sentBy
    requires s'.mark == if d.TcpClose? && d.id !in s.mark then s.mark[d.id := SentBy(s, d.id)] else s.mark
    ensures Inv(s', limits)
  {
    hide Valid, AnsweredOnce, Flows, BytesFor, BeforeClose;
    assert Backlog(s') == Backlog(s) + [d];
    SameAnswers(s, s');
    forall id | id in s.net.tcp
      ensures Flows(s.net.tcp[id], s.net.sockets[s.net.tcp[id].handle], Backlog(s'), id, SentBy(s', id), MarkOf(s', id))
    {
      JoinedFlows(s.net.tcp[id], s.net.sockets[s.net.tcp[id].handle], Backlog(s), d, id, SentBy(s, id), MarkOf(s, id));
    }
  }

  /** More of the app's items join the queue. */
  lemma AppStep(s: System, a: Action, s': System, limits: Limits)
    requires Inv(s, limits) && Acts(s, a, s', limits) && (a.AppSends? || a.AppCloses? || a.AppUdp?)
    ensures Inv(s', limits)
  {
    hide Inv;
    var d := s'.queue[|s.queue|];
    assert s'.queue == s.queue + [d];
    JoinStep(s, d, s', limits);
  }

  /** What one more item at the end of the backlog does to one connection's claims. */
  lemma JoinedFlows(c: TcpConn, sock: Socket, items: seq<DataIn>, d: DataIn, id: ConnId, sent: seq<byte>,
      mark: Option<seq<byte>>)
    requires sock.TcpSocket? && Flows(c, sock, items, id, sent, mark)
    ensures Flows(c, sock, items + [d], id, sent + Chunk(d, id), if d == TcpClose(id) && mark.None? then Some(sent)
        else mark)
    ensures sent + [] == sent
  {
    BytesForAppend(items, d, id);
    BeforeCloseAppend(items, d, id);
    assert sock.sent + c.pending + (BytesFor(items, id) + Chunk(d, id)) ==
        (sock.sent + c.pending + BytesFor(items, id)) + Chunk(d, id);
  }

  /** A new connection has sent nothing and nothing is on its way. */
  lemma NewConnFlows(c: TcpConn, sock: Socket, items: seq<DataIn>, id: ConnId)
    requires sock.TcpSocket? && Known(items, id) && sock.sent == [] && c.pending == [] && !c.halfClosed &&
        sock.closedFor.None?
    ensures Flows(c, sock, items, id, [], None)
  {
    NothingForTheFuture(items, id);
    assert [] + [] + BytesFor(items, id) == [];
  }

  lemma {:induction false} OneMoreAnswer(log: seq<(RequestId, Answer)>, entry: (RequestId, Answer), r: RequestId)
    ensures Answers(log + [entry], r) == Answers(log, r) + if entry.0 == r then 1 else 0
  {
    assert (log + [entry])[..|log|] == log;
  }

  lemma PolledOwned(net: NetState, now: map<Handle, Socket>)
    requires Owned(net) && PollKeeps(net.sockets, now)
    ensures Owned(net.(sockets := now))
  {
    hide HasOwner;
    forall h | h in now
      ensures HasOwner(net.(sockets := now), h)
    {
      StillOwned(net, net.(sockets := now), h);
    }
  }

  lemma PolledFlows(s: System, now: map<Handle, Socket>)
    requires AllFlow(s) && PollKeeps(s.net.sockets, now)
    ensures NetFlows(s, s.net.(sockets := now), Backlog(s))
  {
    hide BytesFor, BeforeClose;
  }

  lemma PollStep(s: System, now: map<Handle, Socket>, s': System, limits: Limits)
    requires Inv(s, limits) && Acts(s, Poll(now), s', limits)
    ensures Inv(s', limits)
  {
    hide Flows, Answers, HasOwner, Owned;
    assert Backlog(s') == Backlog(s);
    PolledFlows(s, now);
    PolledOwned(s.net, now);
    assert forall r: RequestId :: Waits(s'.net, r) <==> Waits(s.net, r);
  }

  /** What a turn answers, and what it leaves of the opener's claim. */
  lemma TurnAnswers(id: ConnId, c: TcpConn, sock: Socket, v: View, now: nat, limits: Limits)
    requires sock.TcpSocket? && SaneConn(c)
    ensures var (turn, answer) := ServiceConn(id, c, sock, v, now, limits);
            && (turn.Kept? ==> SaneConn(turn.conn))
            && (turn.Kept? ==> turn.conn.responder == if turn.conn.established then None else c.responder)
            && (answer.Some? <==> c.responder.Some? && (turn.Removed? || turn.conn.established))
            && (answer.Some? ==> answer.value.0 == c.responder.value)
  {
    hide EstablishedTurn;
  }

  /** Why a turn closes a socket that was open on this side. */
  lemma ClosingCauses(id: ConnId, c: TcpConn, sock: Socket, v: View, now: nat, limits: Limits)
    requires sock.TcpSocket?
    ensures var turn := ServiceConn(id, c, sock, v, now, limits).0;
            turn.Kept? && turn.sock.closedFor != sock.closedFor ==>
              && sock.closedFor.None?
              && match turn.sock.closedFor
                 case None => false
                 case Some(AppFinished) => c.halfClosed && turn.conn.pending == []
                 case Some(AppGone) => !v.appAlive
                 case Some(PeerFinished) => sock.phase == CloseWait
  {
    hide Deliverable, Min;
  }

  /** One turn keeps the claims about its own connection. */
  lemma TurnFlows(id: ConnId, c: TcpConn, sock: Socket, v: View, now: nat, limits: Limits,
                  items: seq<DataIn>, sent: seq<byte>, mark: Option<seq<byte>>)
    requires sock.TcpSocket? && Flows(c, sock, items, id, sent, mark)
    ensures var turn := ServiceConn(id, c, sock, v, now, limits).0;
            turn.Kept? ==> Flows(turn.conn, turn.sock, items, id, sent, mark)
  {
    hide ServiceConn;
    ClosingCauses(id, c, sock, v, now, limits);
    var turn := ServiceConn(id, c, sock, v, now, limits).0;
    if turn.Kept? && turn.conn.pending == [] {
      assert turn.sock.sent + [] == turn.sock.sent;
    }
  }

  /** A turn that answers its opener, once, or leaves it waiting. */
  lemma TurnAnsweredOnce(s: System, id: ConnId, c: TcpConn, kept: bool, answer: Option<(RequestId, Answer)>, s': System)
    requires AnsweredOnce(s) && id in s.net.tcp && s'.requested == s.requested
    requires s'.net.tcp == if kept then s.net.tcp[id := c] else s.net.tcp - {id}
    requires s'.net.answers == if answer.Some? then s.net.answers + [answer.value] else s.net.answers
    requires answer.Some? <==> s.net.tcp[id].responder.Some? && (!kept || c.responder.None?)
    requires answer.Some? ==> answer.value.0 == s.net.tcp[id].responder.value
    requires kept ==> c.responder.None? || c.responder == s.net.tcp[id].responder
    ensures AnsweredOnce(s')
  {
    hide Answers;
    var mine := s.net.tcp[id].responder;
    forall r: RequestId
      ensures Waits(s'.net, r) <==> Waits(s.net, r) && !(answer.Some? && mine == Some(r))
    {
      if Waits(s.net, r) {
        var t :| t in s.net.tcp && s.net.tcp[t].responder == Some(r);
        if t != id { assert t in s'.net.tcp && s'.net.tcp[t].responder == Some(r); }
        else if answer.None? { assert id in s'.net.tcp && s'.net.tcp[id].responder == Some(r); }
      }
    }
    if answer.Some? {
      assert Waits(s.net, mine.value);
      forall r: RequestId { OneMoreAnswer(s.net.answers, answer.value, r); }
    }
  }

  /** A turn keeps the other connections' claims: none of them is on its socket. */
  lemma TurnNetFlows(s: System, id: ConnId, turn: Serviced, answer: Option<(RequestId, Answer)>)
    requires Owned(s.net) && AllFlow(s) && id in s.net.tcp
    requires turn.Kept? ==> turn.conn.handle == s.net.tcp[id].handle && turn.sock.TcpSocket?
    requires turn.Kept? ==> Flows(turn.conn, turn.sock, Backlog(s), id, SentBy(s, id), MarkOf(s, id))
    ensures NetFlows(s, WithAnswer(AfterTurn(s.net, id, turn), answer), Backlog(s))
  {
    hide Flows, HasOwner;
  }

  lemma TurnStep(s: System, id: ConnId, v: View, clock: nat, s': System, limits: Limits)
    requires Inv(s, limits) && Acts(s, TcpTurn(id, v, clock), s', limits)
    ensures Inv(s', limits)
  {
    hide ServiceConn, Owned, Flows, AnsweredOnce;
    var c := s.net.tcp[id];
    var sock := s.net.sockets[c.handle];
    var (turn, answer) := ServiceConn(id, c, sock, v, clock, limits);
    TurnAnswers(id, c, sock, v, clock, limits);
    TurnFlows(id, c, sock, v, clock, limits, Backlog(s), SentBy(s, id), MarkOf(s, id));
    TurnNetFlows(s, id, turn, answer);
    ServiceOneOwned(s.net, id, v, clock, limits);
    TurnAnsweredOnce(s, id, if turn.Kept? then turn.conn else c, turn.Kept?, answer, s');
    assert Backlog(s') == Backlog(s);
  }

  lemma UdpTurnStep(s: System, id: ConnId, v: View, s': System, limits: Limits)
    requires Inv(s, limits) && Acts(s, UdpTurn(id, v), s', limits)
    ensures Inv(s', limits)
  {
    hide Valid, Flows, AnsweredOnce;
    assert Backlog(s') == Backlog(s);
    if s' != s {
      UdpGone(s, id, limits);
      UdpGoneKeepsShape(s.net, id, limits);
      ShapeKeepsAnswers(s, s'.net);
    }
  }

  lemma UdpGone(s: System, id: ConnId, limits: Limits)
    requires Valid(s.net, limits) && id in s.net.udp
    ensures s.net.udp[id].handle in s.net.sockets
  {
  }

  /** Opening a connection: the new socket is the new connection's, and the others keep theirs. */
  lemma OpenTcpOwned(net: NetState, c: TcpConn, sock: Socket, net': NetState)
    requires Owned(net) && c.handle !in net.sockets && net.nextId !in net.tcp && sock.TcpSocket?
    requires net'.tcp == net.tcp[net.nextId := c] && net'.sockets == net.sockets[c.handle := sock] &&
        net'.udp == net.udp
    ensures Owned(net')
  {
    hide HasOwner;
    forall h | h in net'.sockets
      ensures HasOwner(net', h)
    {
      if h == c.handle { OwnsTcp(net', net.nextId); } else { StillOwned(net, net', h); }
    }
  }

  lemma OwnsTcp(net: NetState, id: ConnId)
    requires id in net.tcp
    ensures HasOwner(net, net.tcp[id].handle)
  {
  }

  lemma OpenUdpOwned(net: NetState, handle: Handle, net': NetState)
    requires Owned(net) && handle !in net.sockets && net.nextId !in net.udp
    requires net'.udp == net.udp[net.nextId := UdpConn(handle)] && net'.sockets == net.sockets[handle := UdpSocket] &&
        net'.tcp == net.tcp
    ensures Owned(net')
  {
    hide HasOwner;
    forall h | h in net'.sockets
      ensures HasOwner(net', h)
    {
      if h == handle { OwnsUdp(net', net.nextId); } else { StillOwned(net, net', h); }
    }
  }

  lemma OwnsUdp(net: NetState, id: ConnId)
    requires id in net.udp
    ensures HasOwner(net, net.udp[id].handle)
  {
  }

  /** A new request held by the connection it opened. */
  lemma RequestHeld(s: System, request: RequestId, c: TcpConn, s': System)
    requires AnsweredOnce(s) && request !in s.requested && s'.requested == s.requested + {request}
    requires s.net.nextId !in s.net.tcp && c.responder == Some(request)
    requires s'.net.tcp == s.net.tcp[s.net.nextId := c] && s'.net.answers == s.net.answers
    ensures AnsweredOnce(s')
  {
    hide Answers;
    forall r: RequestId
      ensures Waits(s'.net, r) <==> Waits(s.net, r) || r == request
    {
      assert s'.net.tcp[s.net.nextId].responder == Some(request);
      if Waits(s.net, r) {
        var t :| t in s.net.tcp && s.net.tcp[t].responder == Some(r);
        assert s'.net.tcp[t].responder == Some(r);
      }
    }
  }

  /** A new request answered at once. */
  lemma RequestAnswered(s: System, request: RequestId, a: Answer, s': System)
    requires AnsweredOnce(s) && request !in s.requested && s'.requested == s.requested + {request}
    requires s'.net.tcp == s.net.tcp && s'.net.answers == s.net.answers + [(request, a)]
    ensures AnsweredOnce(s')
  {
    hide Answers;
    assert forall r: RequestId :: Waits(s'.net, r) <==> Waits(s.net, r);
    assert !Waits(s.net, request);
    forall r: RequestId { OneMoreAnswer(s.net.answers, (request, a), r); }
  }

  lemma OpenTcpStep(s: System, request: RequestId, connects: bool, handle: Handle, clock: nat, s': System,
      limits: Limits)
    requires Inv(s, limits) && Acts(s, OpenTcpConn(request, connects, handle, clock), s', limits)
    ensures Inv(s', limits)
  {
    hide Flows, AnsweredOnce, Owned;
    assert Backlog(s') == Backlog(s);
    if connects {
      var c, sock := s'.net.tcp[s.net.nextId], s'.net.sockets[handle];
      OpenTcpOwned(s.net, c, sock, s'.net);
      NewConnFlows(c, sock, Backlog(s), s.net.nextId);
      OthersFlow(s, s.net, handle, s'.net.sockets);
      RequestHeld(s, request, c, s');
    } else {
      SameOwners(s.net, s'.net);
      RequestAnswered(s, request, Failed("connect"), s');
    }
  }

  /** Adding a socket under a new handle leaves every connection's own socket as it was. */
  lemma OthersFlow(s: System, net: NetState, handle: Handle, sockets: map<Handle, Socket>)
    requires NetFlows(s, net, Backlog(s)) && handle !in net.sockets && handle in sockets
    requires sockets == net.sockets[handle := sockets[handle]]
    ensures NetFlows(s, net.(sockets := sockets), Backlog(s))
  {
    hide Flows;
  }

  lemma OpenUdpStep(s: System, request: RequestId, binds: bool, handle: Handle, s': System, limits: Limits)
    requires Inv(s, limits) && Acts(s, OpenUdpConn(request, binds, handle), s', limits)
    ensures Inv(s', limits)
  {
    hide Flows, AnsweredOnce, Owned;
    assert Backlog(s') == Backlog(s);
    if binds {
      OpenUdpOwned(s.net, handle, s'.net);
      OthersFlow(s, s.net, handle, s'.net.sockets);
      RequestAnswered(s, request, Connected(s.net.nextId), s');
    } else {
      SameOwners(s.net, s'.net);
      RequestAnswered(s, request, Failed("bind"), s');
    }
  }

  lemma SameOwners(net: NetState, net': NetState)
    requires Owned(net) && net'.tcp == net.tcp && net'.udp == net.udp && net'.sockets == net.sockets
    ensures Owned(net')
  {
    forall h | h in net.sockets
      ensures HasOwner(net', h)
    {
      assert HasOwner(net, h);
    }
  }

  lemma StepKeepsInv(s: System, a: Action, s': System, limits: Limits)
    requires Inv(s, limits) && Acts(s, a, s', limits)
    ensures Inv(s', limits)
  {
    hide Inv, Acts;
    match a {
      case Poll(now) => PollStep(s, now, s', limits);
      case TcpTurn(id, view, clock) => TurnStep(s, id, view, clock, s', limits);
      case UdpTurn(id, view) => UdpTurnStep(s, id, view, s', limits);
      case RetryDeferred => DataStep(s, a, s', limits);
      case TakeData => DataStep(s, a, s', limits);
      case OpenTcpConn(request, connects, handle, clock) => OpenTcpStep(s, request, connects, handle, clock, s',
          limits);
      case OpenUdpConn(request, binds, handle) => OpenUdpStep(s, request, binds, handle, s', limits);
      case AppSends(_, _) => AppStep(s, a, s', limits);
      case AppCloses(_) => AppStep(s, a, s', limits);
      case AppUdp(_) => AppStep(s, a, s', limits);
    }
  }

  // ---------------------------------------------------------------- every run

  ghost predicate IsRun(states: seq<System>, actions: seq<Action>, limits: Limits) {
    && |states| == |actions| + 1 && states[0] == START
    && forall i :: 0 <= i < |actions| ==> Acts(states[i], actions[i], states[i + 1], limits)
  }

  lemma StartIsGood(limits: Limits)
    ensures Inv(START, limits)
  {
  }

  lemma {:induction false} RunKeepsInv(states: seq<System>, actions: seq<Action>, limits: Limits, i: nat)
    requires IsRun(states, actions, limits) && i < |states|
    ensures Inv(states[i], limits)
  {
    hide Inv, Acts;
    if i == 0 {
      StartIsGood(limits);
    } else {
      RunKeepsInv(states, actions, limits, i - 1);
      StepKeepsInv(states[i - 1], actions[i - 1], states[i], limits);
    }
  }

  /**
   In every run: what a live connection's socket was handed, what waits for it, and what is still on
   its way spell out exactly what the app sent; the waiting bytes never exceed their cap and at most
   one item is ever deferred.
   */
  lemma BytesConserved(states: seq<System>, actions: seq<Action>, limits: Limits, i: nat, id: ConnId)
    requires IsRun(states, actions, limits) && i < |states| && id in states[i].net.tcp
    ensures var s := states[i];
            var c := s.net.tcp[id];
            && c.handle in s.net.sockets && s.net.sockets[c.handle].TcpSocket?
            && s.net.sockets[c.handle].sent + c.pending + BytesFor(s.deferred, id) + BytesFor(s.queue, id) ==
                SentBy(s, id)
            && |c.pending| <= limits.maxPending && |s.deferred| <= 1
  {
    hide Inv, IsRun, BytesFor;
    RunKeepsInv(states, actions, limits, i);
    InvConserves(states[i], limits, id);
  }

  lemma InvConserves(s: System, limits: Limits, id: ConnId)
    requires Inv(s, limits) && id in s.net.tcp
    ensures var c := s.net.tcp[id];
            && c.handle in s.net.sockets && s.net.sockets[c.handle].TcpSocket?
            && s.net.sockets[c.handle].sent + c.pending + BytesFor(s.deferred, id) + BytesFor(s.queue, id) ==
                SentBy(s, id)
            && |c.pending| <= limits.maxPending && |s.deferred| <= 1
  {
    hide BytesFor, AnsweredOnce, HasOwner, CloseInOrder;
    BytesForJoin(s.deferred, s.queue, id);
    var c := s.net.tcp[id];
    var sock := s.net.sockets[c.handle];
    assert Flows(c, sock, Backlog(s), id, SentBy(s, id), MarkOf(s, id));
    assert sock.sent + c.pending + BytesFor(s.deferred, id) + BytesFor(s.queue, id)
        == sock.sent + c.pending + (BytesFor(s.deferred, id) + BytesFor(s.queue, id));
  }

  lemma {:induction false} BytesForJoin(some: seq<DataIn>, more: seq<DataIn>, id: ConnId)
    ensures BytesFor(some + more, id) == BytesFor(some, id) + BytesFor(more, id)
  {
    hide Chunk;
    if some == [] {
      assert some + more == more;
      assert [] + BytesFor(more, id) == BytesFor(more, id);
    } else {
      assert (some + more)[1..] == some[1..] + more;
      BytesForJoin(some[1..], more, id);
      assert Chunk(some[0], id) + (BytesFor(some[1..], id) + BytesFor(more, id)) ==
          BytesFor(some, id) + BytesFor(more, id);
    }
  }

  /**
   In every run: a turn that closes a socket for the first time does so because the app finished, and
   then everything the app sent before its close has been handed over; or because the app dropped its
   receiver; or because the peer had half-closed.
   */
  lemma ClosedOnlyBehindData(states: seq<System>, actions: seq<Action>, limits: Limits, i: nat, id: ConnId, v: View,
      clock: nat)
    requires IsRun(states, actions, limits) && i < |actions| && actions[i] == TcpTurn(id, v, clock)
    requires id in states[i + 1].net.tcp
    ensures var s, s' := states[i], states[i + 1];
            && id in s.net.tcp && s.net.tcp[id].handle in s.net.sockets &&
                s.net.sockets[s.net.tcp[id].handle].TcpSocket?
            && s'.net.tcp[id].handle in s'.net.sockets && s'.net.sockets[s'.net.tcp[id].handle].TcpSocket?
            && var sock, sock' := s.net.sockets[s.net.tcp[id].handle], s'.net.sockets[s'.net.tcp[id].handle];
               sock.closedFor.None? && sock'.closedFor.Some? ==>
                 || (sock'.closedFor.value == AppFinished && id in s'.mark && s'.mark[id] <= sock'.sent)
                 || (sock'.closedFor.value == AppGone && !v.appAlive)
                 || (sock'.closedFor.value == PeerFinished && sock.phase == CloseWait)
  {
    RunKeepsInv(states, actions, limits, i);
    RunKeepsInv(states, actions, limits, i + 1);
    var s, s' := states[i], states[i + 1];
    assert Acts(s, actions[i], s', limits);
    FirstClose(s, s', id, v, clock, limits);
  }

  lemma FirstClose(s: System, s': System, id: ConnId, v: View, clock: nat, limits: Limits)
    requires Acts(s, TcpTurn(id, v, clock), s', limits) && id in s'.net.tcp && AllFlow(s')
    ensures var sock, sock' := s.net.sockets[s.net.tcp[id].handle], s'.net.sockets[s'.net.tcp[id].handle];
            sock.closedFor.None? && sock'.closedFor.Some? ==>
              || (sock'.closedFor.value == AppFinished && id in s'.mark && s'.mark[id] <= sock'.sent)
              || (sock'.closedFor.value == AppGone && !v.appAlive)
              || (sock'.closedFor.value == PeerFinished && sock.phase == CloseWait)
  {
    hide ServiceConn, Conserved, CloseInOrder;
    ClosingCauses(id, s.net.tcp[id], s.net.sockets[s.net.tcp[id].handle], v, clock, limits);
  }

  /** In every run every socket has exactly one owner, and every owner exactly one socket of its kind. */
  lemma OneOwnerEach(states: seq<System>, actions: seq<Action>, limits: Limits, i: nat)
    requires IsRun(states, actions, limits) && i < |states|
    ensures Owned(states[i].net)
  {
    RunKeepsInv(states, actions, limits, i);
  }

  /** In every run a request to open a connection has been answered once, or a connection not yet up still holds it. */
  lemma RequestsAnsweredOnce(states: seq<System>, actions: seq<Action>, limits: Limits, i: nat, request: RequestId)
    requires IsRun(states, actions, limits) && i < |states| && request in states[i].requested
    ensures var net := states[i].net;
            || Answers(net.answers, request) == 1
            || (Answers(net.answers, request) == 0
                && exists id :: id in net.tcp && !net.tcp[id].established && net.tcp[id].responder == Some(request))
    ensures forall id :: id in states[i].net.tcp ==>
              (states[i].net.tcp[id].established <==> states[i].net.tcp[id].responder.None?)
  {
    hide Answers, Flows;
    RunKeepsInv(states, actions, limits, i);
    var net := states[i].net;
    if Waits(net, request) {
      var id :| id in net.tcp && net.tcp[id].responder == Some(request);
      assert SaneConn(net.tcp[id]);
    }
    forall id | id in net.tcp
      ensures net.tcp[id].established <==> net.tcp[id].responder.None?
    {
      assert SaneConn(net.tcp[id]);
    }
  }
}
