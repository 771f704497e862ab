/** The h2 data path end to end: the batching sender, the wire, and the receiver that drains capsules. */
module Stream {
  import opened Wrappers
  import opened Varint
  import opened Capsules
  import opened Datagrams

  const H2_SEND_BATCH_BYTES: nat := 32 * 1024

  function Flatten(chunks: seq<seq<byte>>): seq<byte> {
    if chunks == [] then [] else Flatten(chunks[..|chunks| - 1]) + chunks[|chunks| - 1]
  }

  function EncodeDatagramCapsule(packet: Packet): seq<byte>
    requires |packet| < VARINT_LIMIT
  {
    EncodeCapsule(Frame(CAPSULE_DATAGRAM, packet))
  }

  // ---------------------------------------------------------------- the sender

  /** What wakes the send loop: a control message, or the packet queue with what has joined it since. */
  datatype Turn =
    | Control(framed: seq<byte>)
    | Finish
    | Packets(arrived: seq<Packet>)

  /** A piece of the outgoing stream and where it came from. */
  datatype Item = FromControl(framed: seq<byte>) | FromQueue(packet: Packet) {
    predicate Fits() {
      FromQueue? ==> |packet| < VARINT_LIMIT
    }

    function Bytes(): seq<byte>
      requires Fits()
    {
      match this
      case FromControl(framed) => framed
      case FromQueue(packet) => EncodeDatagramCapsule(packet)
    }
  }

  ghost predicate AllFit(items: seq<Item>) {
    forall i :: 0 <= i < |items| ==> items[i].Fits()
  }

  function EncodeItems(items: seq<Item>): seq<byte>
    requires AllFit(items)
  {
    if items == [] then [] else EncodeItems(items[..|items| - 1]) + items[|items| - 1].Bytes()
  }

  /** The packets among the items, in order. */
  function QueuedPart(items: seq<Item>): seq<Packet> {
    if items == [] then []
    else
      var last := items[|items| - 1];
      QueuedPart(items[..|items| - 1]) + if last.FromQueue? then [last.packet] else []
  }

  function ControlPart(items: seq<Item>): seq<seq<byte>> {
    if items == [] then []
    else
      var last := items[|items| - 1];
      ControlPart(items[..|items| - 1]) + if last.FromControl? then [last.framed] else []
  }

  /** Every packet that joined the queue during the first `n` turns, in order. */
  function Arrivals(script: seq<Turn>): seq<Packet> {
    if script == [] then []
    else
      var last := script[|script| - 1];
      Arrivals(script[..|script| - 1]) + if last.Packets? then last.arrived else []
  }

  function Controls(script: seq<Turn>): seq<seq<byte>> {
    if script == [] then []
    else
      var last := script[|script| - 1];
      Controls(script[..|script| - 1]) + if last.Control? then [last.framed] else []
  }

  /** A packet short enough that its length has a varint encoding. */
  ghost predicate Sendable(packets: seq<Packet>) {
    forall i :: 0 <= i < |packets| ==> |packets[i]| < VARINT_LIMIT
  }

  lemma OneMoreItem(items: seq<Item>, item: Item)
    requires AllFit(items) && item.Fits()
    ensures AllFit(items + [item])
    ensures EncodeItems(items + [item]) == EncodeItems(items) + item.Bytes()
    ensures QueuedPart(items + [item]) == if item.FromQueue? then QueuedPart(items) + [item.packet]
        else QueuedPart(items)
    ensures ControlPart(items + [item]) == if item.FromControl? then ControlPart(items) + [item.framed]
        else ControlPart(items)
  {
    assert (items + [item])[..|items|] == items;
  }

  /** Takes packets off the queue into one batch until it is full or the queue is empty. */
  method FillBatch(queue: seq<Packet>, items: seq<Item>)
      returns (batch: seq<byte>, items': seq<Item>, queue': seq<Packet>)
    requires queue != [] && Sendable(queue) && AllFit(items)
    ensures AllFit(items') && Sendable(queue')
    ensures EncodeItems(items') == EncodeItems(items) + batch && batch != []
    ensures QueuedPart(items') + queue' == QueuedPart(items) + queue && |queue'| < |queue|
    ensures ControlPart(items') == ControlPart(items) && items < items'
    ensures |batch| < H2_SEND_BATCH_BYTES ==> queue' == []
  {
    hide *;
    batch, items', queue' := [], items, queue;
    assert EncodeItems(items) + [] == EncodeItems(items);
    var first := true;
    while first || (|batch| < H2_SEND_BATCH_BYTES && queue' != [])
      invariant first ==> queue' == queue && items' == items && batch == []
      invariant !first ==> |queue'| < |queue| && batch != [] && items < items'
      invariant AllFit(items') && Sendable(queue')
      invariant EncodeItems(items') == EncodeItems(items) + batch
      invariant QueuedPart(items') + queue' == QueuedPart(items) + queue
      invariant ControlPart(items') == ControlPart(items) && items <= items'
      decreases |queue'|
    {
      var packet := queue'[0];
      BatchStep(items, batch, items', queue');
      batch := batch + EncodeDatagramCapsule(packet);
      items', queue', first := items' + [FromQueue(packet)], queue'[1..], false;
    }
  }

  /** Moving the head of the queue into the batch moves it into the items. */
  lemma BatchStep(items: seq<Item>, batch: seq<byte>, taken: seq<Item>, queue: seq<Packet>)
    requires AllFit(items) && AllFit(taken) && queue != [] && Sendable(queue)
    requires EncodeItems(taken) == EncodeItems(items) + batch
    ensures |queue[0]| < VARINT_LIMIT && Sendable(queue[1..])
    ensures var one, capsule := FromQueue(queue[0]), EncodeDatagramCapsule(queue[0]);
            && AllFit(taken + [one]) && batch + capsule != []
            && EncodeItems(taken + [one]) == EncodeItems(items) + (batch + capsule)
            && QueuedPart(taken + [one]) + queue[1..] == QueuedPart(taken) + queue
            && ControlPart(taken + [one]) == ControlPart(taken)
  {
    hide EncodeItems, QueuedPart, ControlPart;
    var one, capsule := FromQueue(queue[0]), EncodeDatagramCapsule(queue[0]);
    OneMoreItem(taken, one);
    assert (EncodeItems(items) + batch) + capsule == EncodeItems(items) + (batch + capsule);
    assert (QueuedPart(taken) + [queue[0]]) + queue[1..] == QueuedPart(taken) + queue;
  }

  /**
   What the send loop has done after `turns` turns. It took `items` and put the first `sent` of them on the wire;
   the others, if any, are those of the one send that failed. What it took is, in order, every control frame and
   every queued packet but those still in `queue`.
   */
  ghost predicate Pumped(script: seq<Turn>, turns: nat, wire: seq<seq<byte>>, items: seq<Item>, sent: nat,
      queue: seq<Packet>) {
    && turns <= |script| && sent <= |items| && AllFit(items)
    && Flatten(wire) == EncodeItems(items[..sent])
    && QueuedPart(items) + queue == Arrivals(script[..turns])
    && ControlPart(items) == Controls(script[..turns])
  }

  /**
   The send loop; `sends(k)` is whether its k-th send succeeds, and it ends at the first that does not. No packet
   is lost but in that send, and none is repeated or overtaken by another.
   */
  method PumpOutbound(script: seq<Turn>, sends: nat -> bool)
    returns (ok: bool, wire: seq<seq<byte>>, items: seq<Item>, sent: nat, queue: seq<Packet>, turns: nat)
    requires forall i :: 0 <= i < |script| && script[i].Packets? ==> Sendable(script[i].arrived)
    ensures Pumped(script, turns, wire, items, sent, queue)
    ensures forall i :: 0 <= i < |wire| ==> wire[i] != [] && sends(i)
    ensures if ok then sent == |items| && (turns < |script| ==> script[turns] == Finish)
            else sent < |items| && !sends(|wire|)
  {
    hide *;
    ok, wire, items, sent, queue, turns := true, [], [], 0, [], 0;
    StartsEmpty();
    assert script[..0] == [];
    while turns < |script| && script[turns] != Finish
      invariant turns <= |script| && sent == |items|
      invariant AllFit(items) && Sendable(queue) && Flatten(wire) == EncodeItems(items)
      invariant QueuedPart(items) + queue == Arrivals(script[..turns])
      invariant ControlPart(items) == Controls(script[..turns])
      invariant forall i :: 0 <= i < |wire| ==> wire[i] != [] && sends(i)
    {
      var turn, framed := script[turns], [];
      OneMoreTurn(script, turns);
      ghost var before, packets := items, QueuedPart(items);
      match turn {
        case Control(msg) =>
          ItemFits(FromControl(msg));
          OneMoreItem(items, FromControl(msg));
          assert packets + [] == packets;
          framed, items := msg, items + [FromControl(msg)];
        case Packets(arrived) =>
          assert packets + (queue + arrived) == (packets + queue) + arrived;
          BothSendable(queue, arrived);
          queue := queue + arrived;
          if queue != [] {
            framed, items, queue := FillBatch(queue, items);
          }
      }
      turns := turns + 1;
      if framed != [] {
        if !sends(|wire|) {
          FailedSend(script, turns, wire, before, items, queue);
          ok := false;
          return;
        }
        OneMoreChunk(wire, framed);
        wire := wire + [framed];
      } else {
        assert EncodeItems(items) == Flatten(wire) + [] == Flatten(wire);
      }
      sent := |items|;
    }
    AllSent(script, turns, wire, items, queue);
  }

  lemma FailedSend(script: seq<Turn>, turns: nat, wire: seq<seq<byte>>, before: seq<Item>, items: seq<Item>,
      queue: seq<Packet>)
    requires turns <= |script| && AllFit(items) && before <= items && Flatten(wire) == EncodeItems(before)
    requires QueuedPart(items) + queue == Arrivals(script[..turns]) && ControlPart(items) == Controls(script[..turns])
    ensures Pumped(script, turns, wire, items, |before|, queue)
  {
    assert items[..|before|] == before;
  }

  lemma AllSent(script: seq<Turn>, turns: nat, wire: seq<seq<byte>>, items: seq<Item>, queue: seq<Packet>)
    requires turns <= |script| && AllFit(items) && Flatten(wire) == EncodeItems(items)
    requires QueuedPart(items) + queue == Arrivals(script[..turns]) && ControlPart(items) == Controls(script[..turns])
    ensures Pumped(script, turns, wire, items, |items|, queue)
  {
    assert items[..|items|] == items;
  }

  lemma StartsEmpty()
    ensures AllFit([]) && Sendable([]) && Flatten([]) == EncodeItems([]) == []
    ensures QueuedPart([]) + [] == Arrivals([]) && ControlPart([]) == Controls([])
  {
  }

  lemma ItemFits(item: Item)
    requires item.FromControl?
    ensures item.Fits() && item.Bytes() == item.framed
  {
  }

  lemma OneMoreTurn(script: seq<Turn>, n: nat)
    requires n < |script|
    ensures Arrivals(script[..n + 1]) == if script[n].Packets? then Arrivals(script[..n]) + script[n].arrived
        else Arrivals(script[..n])
    ensures Controls(script[..n + 1]) == if script[n].Control? then Controls(script[..n]) + [script[n].framed]
        else Controls(script[..n])
  {
    assert script[..n + 1][..n] == script[..n];
  }

  lemma BothSendable(some: seq<Packet>, more: seq<Packet>)
    requires Sendable(some) && Sendable(more)
    ensures Sendable(some + more)
  {
  }

  lemma OneMoreChunk(chunks: seq<seq<byte>>, chunk: seq<byte>)
    ensures Flatten(chunks + [chunk]) == Flatten(chunks) + chunk
  {
    assert (chunks + [chunk])[..|chunks|] == chunks;
  }

  // ---------------------------------------------------------------- the receiver

  /** What `try_send` on the inbound queue answers. */
  datatype SendOutcome = Accepted | Full | Closed

  /** What one drain did: what it left, the packets it offered the inbound queue, and those the queue took. */
  datatype Drained = Drained(buf: seq<byte>, offered: seq<Packet>, queued: seq<Packet>, addresses: seq<AssignedAddress>)

  /** `d` with what an earlier part of the same drain did in front. */
  function Ahead(offered: seq<Packet>, queued: seq<Packet>, addresses: seq<AssignedAddress>, d: Drained): Drained {
    Drained(d.buf, offered + d.offered, queued + d.queued, addresses + d.addresses)
  }

  /** `packet` in a list of its own, if the queue took it. */
  function TakenOf(packet: Packet, outcome: SendOutcome): seq<Packet> {
    if outcome == Accepted then [packet] else []
  }

  /** One drain of the parser's buffer; `outcomes(k)` is the inbound queue's answer to the k-th packet ever offered. */
  function Drain(buf: seq<byte>, outcomes: nat -> SendOutcome, sent: nat): Drained
    decreases |buf|
  {
    match NextFrame(buf)
    case None => Drained(buf, [], [], [])
    case Some((f, n)) =>
      match Interpret(f)
      case Err(_) => Drained(buf[n..], [], [], [])
      case Ok(Datagram(payload)) =>
        (match StripDatagramContext(payload)
         case None => Drain(buf[n..], outcomes, sent)
         case Some(packet) =>
           if outcomes(sent) == Closed then Drained(buf[n..], [packet], [], [])
           else Ahead([packet], TakenOf(packet, outcomes(sent)), [], Drain(buf[n..], outcomes, sent + 1)))
      case Ok(AddressAssign(list)) => Ahead([], [], list, Drain(buf[n..], outcomes, sent))
      case Ok(_) => Drain(buf[n..], outcomes, sent)
  }

  lemma AheadNothing(d: Drained)
    ensures Ahead([], [], [], d) == d
  {
    assert [] + d.offered == d.offered && [] + d.queued == d.queued && [] + d.addresses == d.addresses;
  }

  lemma AheadTwice(o1: seq<Packet>, q1: seq<Packet>, a1: seq<AssignedAddress>,
                   o2: seq<Packet>, q2: seq<Packet>, a2: seq<AssignedAddress>, d: Drained)
    ensures Ahead(o1, q1, a1, Ahead(o2, q2, a2, d)) == Ahead(o1 + o2, q1 + q2, a1 + a2, d)
  {
    assert o1 + (o2 + d.offered) == (o1 + o2) + d.offered;
    assert q1 + (q2 + d.queued) == (q1 + q2) + d.queued;
    assert a1 + (a2 + d.addresses) == (a1 + a2) + d.addresses;
  }

  /**
   Takes whole capsules off the parser, offering packets to the inbound queue and assigned addresses to their
   channel; `sent` and `sent'` count the packets offered so far, `delivered` says whether this drain offered any.
   */
  method DrainCapsules(parser: CapsuleParser, outcomes: nat -> SendOutcome, sent: nat)
    returns (delivered: bool, queued: seq<Packet>, addresses: seq<AssignedAddress>, sent': nat)
    modifies parser
    ensures var d := Drain(old(parser.buf), outcomes, sent);
            && parser.buf == d.buf && queued == d.queued && addresses == d.addresses
            && (delivered <==> d.offered != []) && sent' == sent + |d.offered|
  {
    hide NextFrame, Interpret, StripDatagramContext, Ahead, TakenOf;
    delivered, queued, addresses, sent' := false, [], [], sent;
    ghost var offered: seq<Packet> := [];
    AheadNothing(Drain(parser.buf, outcomes, sent));
    while true
      invariant Drain(old(parser.buf), outcomes, sent) ==
          Ahead(offered, queued, addresses, Drain(parser.buf, outcomes, sent'))
      invariant (delivered <==> offered != []) && sent' == sent + |offered|
      decreases |parser.buf|
    {
      var next := parser.Next();
      ghost var rest := Drain(parser.buf, outcomes, sent');
      AheadNothing(rest);
      AheadEnd(offered, queued, addresses, parser.buf, []);
      if next.Err? || next.value.None? {
        assert offered + [] == offered;
        return;
      }
      match next.value.value {
        case Datagram(payload) =>
          var packet := StripDatagramContext(payload);
          if packet.Some? {
            delivered := true;
            AheadEnd(offered, queued, addresses, parser.buf, [packet.value]);
            var outcome := outcomes(sent');
            sent' := sent' + 1;
            if outcome == Closed {
              return;
            }
            var taken := TakenOf(packet.value, outcome);
            AheadTwice(offered, queued, addresses, [packet.value], taken, [], Drain(parser.buf, outcomes, sent'));
            assert addresses + [] == addresses;
            offered, queued := offered + [packet.value], queued + taken;
          }
        case AddressAssign(list) =>
          AheadTwice(offered, queued, addresses, [], [], list, rest);
          assert offered + [] == offered && queued + [] == queued;
          addresses := addresses + list;
        case _ =>
      }
    }
  }

  lemma AheadEnd(offered: seq<Packet>, queued: seq<Packet>, addresses: seq<AssignedAddress>, buf: seq<byte>,
      last: seq<Packet>)
    ensures Ahead(offered, queued, addresses, Drained(buf, last, [], [])) ==
        Drained(buf, offered + last, queued, addresses)
  {
  }

  /** The packets in a run of results, in order. */
  function PacketsIn(results: seq<Outcome>): seq<Packet> {
    if results == [] then [] else PacketIn(results[0]) + PacketsIn(results[1..])
  }

  /** The packet in one result, if it is a datagram that holds one. */
  function PacketIn(result: Outcome): seq<Packet> {
    if result.Err? || !result.value.Datagram? then []
    else
      match StripDatagramContext(result.value.payload)
      case Some(packet) => [packet]
      case None => []
  }

  lemma {:induction false} PacketsInAppend(some: seq<Outcome>, more: seq<Outcome>)
    ensures PacketsIn(some + more) == PacketsIn(some) + PacketsIn(more)
  {
    hide PacketIn;
    if some == [] {
      assert some + more == more;
    } else {
      assert (some + more)[1..] == some[1..] + more;
      PacketsInAppend(some[1..], more);
      assert PacketIn(some[0]) + (PacketsIn(some[1..]) + PacketsIn(more)) == PacketsIn(some) + PacketsIn(more);
    }
  }

  ghost predicate NoErrors(results: seq<Outcome>) {
    forall i :: 0 <= i < |results| ==> results[i].Ok?
  }

  /** Of the packets offered from the `sent`-th on, those the queue took. */
  function Taken(offered: seq<Packet>, outcomes: nat -> SendOutcome, sent: nat): seq<Packet> {
    if offered == [] then [] else TakenOf(offered[0], outcomes(sent)) + Taken(offered[1..], outcomes, sent + 1)
  }

  lemma OneTaken(packet: Packet, more: seq<Packet>, outcomes: nat -> SendOutcome, sent: nat)
    ensures Taken([packet] + more, outcomes, sent) == TakenOf(packet, outcomes(sent)) + Taken(more, outcomes, sent + 1)
  {
    assert ([packet] + more)[1..] == more;
  }

  lemma {:induction false} TakenAppend(some: seq<Packet>, more: seq<Packet>, outcomes: nat -> SendOutcome, sent: nat)
    ensures Taken(some + more, outcomes, sent) == Taken(some, outcomes, sent) + Taken(more, outcomes, sent + |some|)
  {
    if some == [] {
      assert some + more == more;
      assert [] + Taken(more, outcomes, sent) == Taken(more, outcomes, sent);
    } else {
      hide Taken, TakenOf;
      var one, rest := some[0], some[1..];
      assert some == [one] + rest;
      assert some + more == [one] + (rest + more);
      OneTaken(one, rest + more, outcomes, sent);
      OneTaken(one, rest, outcomes, sent);
      TakenAppend(rest, more, outcomes, sent + 1);
      var taken, later := TakenOf(one, outcomes(sent)), Taken(rest, outcomes, sent + 1);
      assert taken + (later + Taken(more, outcomes, sent + |some|)) ==
          (taken + later) + Taken(more, outcomes, sent + |some|);
    }
  }

  lemma {:induction false} TakenAll(offered: seq<Packet>, outcomes: nat -> SendOutcome, sent: nat)
    requires forall k :: outcomes(k) == Accepted
    ensures Taken(offered, outcomes, sent) == offered
  {
    if offered != [] {
      TakenAll(offered[1..], outcomes, sent + 1);
    }
  }

  /** The results of a buffer, by its first capsule. */
  lemma ByFirstCapsule(buf: seq<byte>)
    requires NextFrame(buf).Some?
    ensures var (f, n) := NextFrame(buf).value;
            PacketsIn(Results(buf)) == PacketIn(Interpret(f)) + PacketsIn(Results(buf[n..])) &&
                Rest(buf) == Rest(buf[n..])
  {
    hide NextFrame, Interpret, PacketIn;
    var (f, n) := NextFrame(buf).value;
    assert Results(buf)[1..] == Results(buf[n..]) && Results(buf)[0] == Interpret(f);
  }

  /** What a drain does with the first capsule, and whether it goes on to the next. */
  lemma DrainByFirstCapsule(buf: seq<byte>, outcomes: nat -> SendOutcome, sent: nat)
    requires NextFrame(buf).Some?
    ensures var (f, n) := NextFrame(buf).value;
            var d, packet := Drain(buf, outcomes, sent), PacketIn(Interpret(f));
            var later := Drain(buf[n..], outcomes, sent + |packet|);
            && |packet| <= 1
            && (|| (d.buf == buf[n..] && d.offered == packet && d.queued == [] &&
                (packet == [] || outcomes(sent) == Closed))
                || (d.buf == later.buf && d.offered == packet + later.offered
                    && d.queued == if packet == [] then later.queued
                                   else TakenOf(packet[0], outcomes(sent)) + later.queued))
  {
    hide NextFrame, Interpret, StripDatagramContext, TakenOf;
    var (f, n) := NextFrame(buf).value;
    var later := Drain(buf[n..], outcomes, sent);
    assert [] + later.offered == later.offered && [] + later.queued == later.queued;
  }

  /** `d` offered `packets` but for those `left`, and the queue took of them exactly those it accepted. */
  ghost predicate Offers(d: Drained, packets: seq<Packet>, left: seq<Packet>, outcomes: nat -> SendOutcome, sent: nat) {
    d.offered + left == packets && d.queued == Taken(d.offered, outcomes, sent)
  }

  lemma DrainStops(d: Drained, packet: seq<Packet>, left: seq<Packet>, outcomes: nat -> SendOutcome, sent: nat)
    requires |packet| <= 1 && (packet == [] || outcomes(sent) == Closed)
    requires d.offered == packet && d.queued == []
    ensures Offers(d, packet + left, left, outcomes, sent)
  {
    FirstTaken(packet, [], outcomes, sent);
    assert packet + [] == packet;
  }

  lemma DrainGoesOn(d: Drained, packet: seq<Packet>, later: Drained, packets: seq<Packet>, left: seq<Packet>,
                    outcomes: nat -> SendOutcome, sent: nat)
    requires |packet| <= 1 && d.offered == packet + later.offered
    requires d.queued == if packet == [] then later.queued else TakenOf(packet[0], outcomes(sent)) + later.queued
    requires Offers(later, packets, left, outcomes, sent + |packet|)
    ensures Offers(d, packet + packets, left, outcomes, sent)
  {
    hide Taken, TakenOf;
    FirstTaken(packet, later.offered, outcomes, sent);
    assert packet + (later.offered + left) == (packet + later.offered) + left;
  }

  /**
   Whatever the queue answers and whatever is malformed, a drain loses nothing of what it reads: the packets it
   offered, and then those still in the buffer, are the buffer's, and the queue holds exactly those it accepted.
   */
  lemma {:induction false} DrainConserves(buf: seq<byte>, outcomes: nat -> SendOutcome, sent: nat)
    ensures var d := Drain(buf, outcomes, sent);
            Rest(d.buf) == Rest(buf) && Offers(d, PacketsIn(Results(buf)), PacketsIn(Results(d.buf)), outcomes, sent)
    decreases |buf|
  {
    hide *;
    if NextFrame(buf).None? {
      DrainNothing(buf, outcomes, sent);
    } else {
      ShorterRest(buf);
      var (f, n) := NextFrame(buf).value;
      var d, packet := Drain(buf, outcomes, sent), PacketIn(Interpret(f));
      var later := Drain(buf[n..], outcomes, sent + |packet|);
      ByFirstCapsule(buf);
      DrainByFirstCapsule(buf, outcomes, sent);
      DrainConserves(buf[n..], outcomes, sent + |packet|);
      if d.buf == buf[n..] && d.offered == packet && d.queued == [] && (packet == [] || outcomes(sent) == Closed) {
        DrainStops(d, packet, PacketsIn(Results(d.buf)), outcomes, sent);
      } else {
        DrainGoesOn(d, packet, later, PacketsIn(Results(buf[n..])), PacketsIn(Results(d.buf)), outcomes, sent);
      }
    }
  }

  lemma DrainNothing(buf: seq<byte>, outcomes: nat -> SendOutcome, sent: nat)
    requires NextFrame(buf).None?
    ensures Drain(buf, outcomes, sent).buf == buf
    ensures Offers(Drain(buf, outcomes, sent), PacketsIn(Results(buf)), PacketsIn(Results(buf)), outcomes, sent)
  {
    assert [] + PacketsIn(Results(buf)) == PacketsIn(Results(buf));
  }

  lemma ShorterRest(buf: seq<byte>)
    requires NextFrame(buf).Some?
    ensures |buf[NextFrame(buf).value.1..]| < |buf|
  {
  }

  lemma FirstTaken(packet: seq<Packet>, more: seq<Packet>, outcomes: nat -> SendOutcome, sent: nat)
    requires |packet| <= 1
    ensures Taken(packet + more, outcomes, sent) ==
              if packet == [] then Taken(more, outcomes, sent)
              else TakenOf(packet[0], outcomes(sent)) + Taken(more, outcomes, sent + 1)
    ensures Taken([], outcomes, sent) == [] && TakenOf([], Closed) == []
  {
    if packet == [] {
      assert packet + more == more;
    } else {
      assert packet == [packet[0]];
      OneTaken(packet[0], more, outcomes, sent);
    }
  }

  /** A drain that meets neither a malformed capsule nor a closed queue leaves only what is incomplete. */
  lemma {:induction false} DrainEmpties(buf: seq<byte>, outcomes: nat -> SendOutcome, sent: nat)
    requires NoErrors(Results(buf)) && forall k :: outcomes(k) != Closed
    ensures Drain(buf, outcomes, sent).buf == Rest(buf)
    decreases |buf|
  {
    hide NextFrame, Interpret, StripDatagramContext;
    if NextFrame(buf).Some? {
      var (f, n) := NextFrame(buf).value;
      var later := Results(buf[n..]);
      assert Results(buf)[1..] == later && Results(buf)[0] == Interpret(f);
      assert forall i :: 0 <= i < |later| ==> later[i] == Results(buf)[i + 1];
      DrainEmpties(buf[n..], outcomes, sent);
      DrainEmpties(buf[n..], outcomes, sent + 1);
    }
  }

  /** The parser's buffer after a number of chunks, the packets offered inbound, and those taken. */
  datatype Received = Received(buf: seq<byte>, offered: seq<Packet>, queued: seq<Packet>)

  /** The receive loop over the chunks of the response body: push, then drain. */
  function Receive(chunks: seq<seq<byte>>, outcomes: nat -> SendOutcome): Received {
    if chunks == [] then Received([], [], [])
    else
      var before := Receive(chunks[..|chunks| - 1], outcomes);
      var d := Drain(Pushed(before.buf, chunks[|chunks| - 1]), outcomes, |before.offered|);
      Received(d.buf, before.offered + d.offered, before.queued + d.queued)
  }

  /** Feeds the response body to one parser, chunk by chunk. */
  method ReceiveBody(chunks: seq<seq<byte>>, outcomes: nat -> SendOutcome)
    returns (buf: seq<byte>, queued: seq<Packet>, gotData: bool)
    ensures var all := Receive(chunks, outcomes);
            buf == all.buf && queued == all.queued && (gotData <==> all.offered != [])
  {
    hide Drain;
    var parser := new CapsuleParser();
    var sent := 0;
    queued, gotData := [], false;
    for i := 0 to |chunks|
      invariant var all := Receive(chunks[..i], outcomes);
                && parser.buf == all.buf && queued == all.queued
                && (gotData <==> all.offered != []) && sent == |all.offered|
    {
      assert chunks[..i + 1][..i] == chunks[..i];
      parser.Push(chunks[i]);
      var delivered, more, _, sent' := DrainCapsules(parser, outcomes, sent);
      queued, gotData, sent := queued + more, gotData || delivered, sent';
    }
    assert chunks[..|chunks|] == chunks;
    buf := parser.buf;
  }

  /** No chunk overflows the parser's buffer on arrival. */
  predicate Fits(chunks: seq<seq<byte>>, outcomes: nat -> SendOutcome) {
    chunks == [] ||
    (var init, last := chunks[..|chunks| - 1], chunks[|chunks| - 1];
     Fits(init, outcomes) && |Receive(init, outcomes).buf| + |last| <= MAX_CAPSULE_BUF)
  }

  /**
   However the stream is cut, whatever of it is malformed and whatever the queue answers: the packets offered so
   far, and then those still in the buffer, are the stream's, in order; and the queue took exactly those it accepted.
   */
  lemma {:induction false} ReceiveConserves(chunks: seq<seq<byte>>, outcomes: nat -> SendOutcome)
    requires Fits(chunks, outcomes)
    ensures var all := Receive(chunks, outcomes);
            && all.offered + PacketsIn(Results(all.buf)) == PacketsIn(Results(Flatten(chunks)))
            && Rest(all.buf) == Rest(Flatten(chunks))
            && all.queued == Taken(all.offered, outcomes, 0)
  {
    hide Results, Rest, PacketsIn, Drain, Taken;
    if chunks == [] {
      NothingYet();
      assert Taken([], outcomes, 0) == [] by { NoneTaken(outcomes); }
    } else {
      var init, last := chunks[..|chunks| - 1], chunks[|chunks| - 1];
      var before := Receive(init, outcomes);
      ReceiveConserves(init, outcomes);
      var d := Drain(before.buf + last, outcomes, |before.offered|);
      DrainConserves(before.buf + last, outcomes, |before.offered|);
      TakenAppend(before.offered, d.offered, outcomes, 0);
      Arrives(before.buf, last);
      Arrives(Flatten(init), last);
      assert (before.offered + d.offered) + PacketsIn(Results(d.buf))
          == before.offered + (d.offered + PacketsIn(Results(d.buf)));
      assert before.offered + (PacketsIn(Results(before.buf)) + PacketsIn(Results(Rest(before.buf) + last)))
          == (before.offered + PacketsIn(Results(before.buf))) + PacketsIn(Results(Rest(before.buf) + last));
    }
  }

  lemma NoneTaken(outcomes: nat -> SendOutcome)
    ensures Taken([], outcomes, 0) == []
  {
  }

  /** What one more chunk adds to a stream's packets. */
  lemma Arrives(stream: seq<byte>, last: seq<byte>)
    ensures PacketsIn(Results(stream + last)) == PacketsIn(Results(stream)) + PacketsIn(Results(Rest(stream) + last))
    ensures Rest(stream + last) == Rest(Rest(stream) + last)
  {
    hide Results, Rest, PacketsIn;
    ResultsAppend(stream, last);
    PacketsInAppend(Results(stream), Results(Rest(stream) + last));
  }

  /** With nothing malformed and the queue not closed, every packet is offered and only what is incomplete is kept. */
  lemma {:induction false} ReceiveDeliversAll(chunks: seq<seq<byte>>, outcomes: nat -> SendOutcome)
    requires Fits(chunks, outcomes) && NoErrors(Results(Flatten(chunks))) && forall k :: outcomes(k) != Closed
    ensures var packets := PacketsIn(Results(Flatten(chunks)));
            Receive(chunks, outcomes) == Received(Rest(Flatten(chunks)), packets, Taken(packets, outcomes, 0))
  {
    hide Results, Rest, PacketsIn, Drain, NoErrors, Taken;
    ReceiveConserves(chunks, outcomes);
    ReceiveEmpties(chunks, outcomes);
    RestIsEmpty(Flatten(chunks));
    var all := Receive(chunks, outcomes);
    assert all.offered + [] == all.offered;
  }

  lemma {:induction false} ReceiveEmpties(chunks: seq<seq<byte>>, outcomes: nat -> SendOutcome)
    requires Fits(chunks, outcomes) && NoErrors(Results(Flatten(chunks))) && forall k :: outcomes(k) != Closed
    ensures Receive(chunks, outcomes).buf == Rest(Flatten(chunks))
  {
    hide Results, Rest, PacketsIn, NoErrors, Drain;
    if chunks == [] {
      NothingYet();
    } else {
      var init, last := chunks[..|chunks| - 1], chunks[|chunks| - 1];
      ResultsAppend(Flatten(init), last);
      BothErrorFree(Results(Flatten(init)), Results(Rest(Flatten(init)) + last));
      ReceiveEmpties(init, outcomes);
      DrainEmpties(Rest(Flatten(init)) + last, outcomes, |Receive(init, outcomes).offered|);
    }
  }

  lemma RestIsEmpty(stream: seq<byte>)
    ensures PacketsIn(Results(Rest(stream))) == []
  {
  }

  lemma BothErrorFree(some: seq<Outcome>, more: seq<Outcome>)
    ensures NoErrors(some + more) <==> NoErrors(some) && NoErrors(more)
  {
    assert forall i :: 0 <= i < |some| ==> some[i] == (some + more)[i];
    assert forall i :: 0 <= i < |more| ==> more[i] == (some + more)[|some| + i];
  }

  lemma NothingYet()
    ensures NextFrame([]).None? && Results([]) == [] && Rest([]) == [] && PacketsIn([]) == [] && NoErrors([])
  {
  }

  // ---------------------------------------------------------------- end to end

  /** Control frames are datagram capsules too: the only one the engine sends is its own probe packet. */
  ghost predicate Carries(items: seq<Item>, packets: seq<Packet>) {
    && |items| == |packets| && AllFit(items)
    && forall i :: 0 <= i < |items| ==>
         |packets[i]| < VARINT_LIMIT && items[i].Bytes() == EncodeDatagramCapsule(packets[i])
  }

  lemma {:induction false} CarriedResults(items: seq<Item>, packets: seq<Packet>)
    requires Carries(items, packets)
    requires forall i :: 0 <= i < |packets| ==> ValidIpPacket(packets[i])
    ensures NoErrors(Results(EncodeItems(items))) && Rest(EncodeItems(items)) == []
    ensures PacketsIn(Results(EncodeItems(items))) == packets
  {
    hide Results, Rest, PacketsIn, NoErrors, EncodeCapsule, ValidIpPacket;
    if items == [] {
      NothingYet();
    } else {
      var init, packet := items[..|items| - 1], packets[|packets| - 1];
      CarriedResults(init, packets[..|packets| - 1]);
      var one := EncodeDatagramCapsule(packet);
      ResultsAppend(EncodeItems(init), one);
      assert [] + one == one;
      OneCapsule(packet);
      BothErrorFree(Results(EncodeItems(init)), Results(one));
      PacketsInAppend(Results(EncodeItems(init)), Results(one));
      assert packets == packets[..|packets| - 1] + [packet];
    }
  }

  lemma OneCapsule(packet: Packet)
    requires |packet| < VARINT_LIMIT && ValidIpPacket(packet)
    ensures var one := EncodeDatagramCapsule(packet);
            && Results(one) == [Ok(Datagram(packet))] && Rest(one) == []
            && PacketsIn(Results(one)) == [packet] && NoErrors(Results(one))
  {
    hide StripDatagramContext, EncodeCapsule, DecodeVarint, ValidIpPacket;
    var one := EncodeDatagramCapsule(packet);
    FrameRoundTrip(Frame(CAPSULE_DATAGRAM, packet), []);
    assert one + [] == one;
    assert one[|one|..] == [];
    NothingYet();
    ContextDisambiguation(packet);
  }

  /** What each item carries: a queued packet, or the probe. */
  function Payloads(items: seq<Item>, probe: Packet): (packets: seq<Packet>)
    ensures |packets| == |items|
  {
    seq(|items|, i requires 0 <= i < |items| => if items[i].FromQueue? then items[i].packet else probe)
  }

  /** Every control frame is a capsule of the probe packet. */
  ghost predicate OnlyProbes(frames: seq<seq<byte>>, probe: Packet)
    requires |probe| < VARINT_LIMIT
  {
    forall i :: 0 <= i < |frames| ==> frames[i] == EncodeDatagramCapsule(probe)
  }

  /** Where an item's frame is found again: its control frame among the control frames, its packet in the queue's. */
  lemma {:induction false} ItemsParts(items: seq<Item>, i: nat)
    requires i < |items|
    ensures items[i].FromControl? ==> items[i].framed in ControlPart(items)
    ensures items[i].FromQueue? ==> items[i].packet in QueuedPart(items)
  {
    var last := |items| - 1;
    if i < last {
      ItemsParts(items[..last], i);
      assert items[..last][i] == items[i];
    }
  }

  lemma ItemsCarry(items: seq<Item>, probe: Packet)
    requires |probe| < VARINT_LIMIT && AllFit(items) && OnlyProbes(ControlPart(items), probe)
    ensures Carries(items, Payloads(items, probe))
    ensures forall i :: 0 <= i < |items| ==>
        Payloads(items, probe)[i] in QueuedPart(items) || Payloads(items, probe)[i] == probe
  {
    hide ControlPart, QueuedPart, EncodeDatagramCapsule;
    forall i | 0 <= i < |items|
      ensures |Payloads(items, probe)[i]| < VARINT_LIMIT
      ensures items[i].Bytes() == EncodeDatagramCapsule(Payloads(items, probe)[i])
      ensures Payloads(items, probe)[i] in QueuedPart(items) || Payloads(items, probe)[i] == probe
    {
      ItemsParts(items, i);
      assert items[i].Fits();
    }
  }

  /** Without control frames the items are the queue's packets. */
  lemma {:induction false} OnlyQueued(items: seq<Item>, probe: Packet)
    requires ControlPart(items) == []
    ensures Payloads(items, probe) == QueuedPart(items)
  {
    if items != [] {
      var init, last := items[..|items| - 1], items[|items| - 1];
      OnlyQueued(init, probe);
      assert last.FromQueue?;
      assert Payloads(items, probe) == Payloads(init, probe) + [last.packet];
    }
  }

  /**
   However the sender batched its items into frames, and however the transport cut those bytes into
   chunks, the receiver offers exactly the packets sent, in order, and keeps nothing back.
   */
  lemma EndToEnd(items: seq<Item>, packets: seq<Packet>, wire: seq<seq<byte>>, chunks: seq<seq<byte>>,
                 outcomes: nat -> SendOutcome)
    requires Carries(items, packets)
    requires forall i :: 0 <= i < |packets| ==> ValidIpPacket(packets[i])
    requires Flatten(wire) == EncodeItems(items) && Flatten(chunks) == Flatten(wire)
    requires Fits(chunks, outcomes) && forall k :: outcomes(k) != Closed
    ensures Receive(chunks, outcomes) == Received([], packets, Taken(packets, outcomes, 0))
  {
    hide Carries, ValidIpPacket, Fits, Receive, Taken;
    CarriedResults(items, packets);
    ReceiveDeliversAll(chunks, outcomes);
  }

  /**
   From one queue to the other: once the send loop has sent all it took, the receiver has been offered the packets
   that joined the sender's queue and are no longer in it, among the probes; without probes, exactly those packets.
   */
  lemma QueueToQueue(script: seq<Turn>, turns: nat, wire: seq<seq<byte>>, items: seq<Item>, queue: seq<Packet>,
                     probe: Packet, chunks: seq<seq<byte>>, outcomes: nat -> SendOutcome)
    requires Pumped(script, turns, wire, items, |items|, queue)
    requires ValidIpPacket(probe) && |probe| < VARINT_LIMIT && OnlyProbes(Controls(script[..turns]), probe)
    requires forall i :: 0 <= i < |Arrivals(script[..turns])| ==> ValidIpPacket(Arrivals(script[..turns])[i])
    requires Flatten(chunks) == Flatten(wire) && Fits(chunks, outcomes) && forall k :: outcomes(k) == Accepted
    ensures Receive(chunks, outcomes) == Received([], Payloads(items, probe), Payloads(items, probe))
    ensures QueuedPart(items) + queue == Arrivals(script[..turns])
    ensures Controls(script[..turns]) == [] && queue == [] ==>
              Receive(chunks, outcomes) == Received([], Arrivals(script[..turns]), Arrivals(script[..turns]))
  {
    hide Fits, Receive, Carries, ValidIpPacket, Flatten, EncodeItems, Arrivals, Controls, OnlyProbes;
    assert items[..|items|] == items;
    var packets := Payloads(items, probe);
    ItemsCarry(items, probe);
    if Controls(script[..turns]) == [] {
      OnlyQueued(items, probe);
    }
    forall i | 0 <= i < |packets| ensures ValidIpPacket(packets[i]) {
      if packets[i] != probe {
        var k :| 0 <= k < |QueuedPart(items)| && QueuedPart(items)[k] == packets[i];
        assert packets[i] == (QueuedPart(items) + queue)[k];
      }
    }
    EndToEnd(items, packets, wire, chunks, outcomes);
    TakenAll(packets, outcomes, 0);
    assert QueuedPart(items) + [] == QueuedPart(items);
  }
}
