/**
 * The loop that serves one WebSocket: it moves the peer's messages into a bounded queue for the
 * handler, the handler's messages onto the socket, and closes. What happens next is chosen by a
 * schedule: the peer, the handler's thread, the closing timer. The handler takes from the queue
 * and drops it whenever it likes.
 */
module WebSocketLoop {
  type Data = nat

  datatype Incoming = Message(data: Data) | CloseMarker(code: nat)

  datatype Frame = DataFrame(data: Data) | CloseFrame(code: nat)

  /** `sends` says whether writing to the socket succeeds. */
  datatype Event =
    | PeerData(data: Data, sends: bool)
    | PeerClose(code: nat)
    | PeerPing
    | ReceiveError
    | Disconnected
    | HandlerSends(frame: Frame, sends: bool)
    | HandlerGone
    | CloseTimeout
    | HandlerReceives
    | HandlerDropsQueue

  const CAPACITY := 64
  const QUEUE_FULL := 1013
  const ABNORMAL := 1006

  function Messages(data: seq<Data>): seq<Incoming> {
    seq(|data|, i requires 0 <= i < |data| => Message(data[i]))
  }

  /** What the handler was handed: the first `n` of the peer's messages, then at most one marker. */
  ghost predicate Prefix(handed: seq<Incoming>, peer: seq<Data>, n: nat, marked: bool) {
    && n <= |peer|
    && if marked then handed != [] && handed[|handed| - 1].CloseMarker? && handed[..|handed| - 1] == Messages(peer[..n])
       else handed == Messages(peer[..n])
  }

  ghost predicate SomePrefix(handed: seq<Incoming>, peer: seq<Data>) {
    exists n: nat, marked: bool :: Prefix(handed, peer, n, marked)
  }

  /** At most one close frame, and no frame after it. */
  predicate CloseIsLast(frames: seq<Frame>) {
    forall i :: 0 <= i < |frames| - 1 ==> frames[i].DataFrame?
  }

  predicate Closed(frames: seq<Frame>) {
    frames != [] && frames[|frames| - 1].CloseFrame?
  }

  lemma MorePeer(handed: seq<Incoming>, peer: seq<Data>, n: nat, marked: bool, data: Data)
    ensures Prefix(handed, peer, n, marked) ==> Prefix(handed, peer + [data], n, marked)
  {
    if n <= |peer| {
      assert (peer + [data])[..n] == peer[..n];
    }
  }

  /** Any first part of what was handed over is a prefix too. */
  lemma PrefixOfPrefix(first: seq<Incoming>, rest: seq<Incoming>, peer: seq<Data>, n: nat, marked: bool)
    requires Prefix(first + rest, peer, n, marked)
    ensures SomePrefix(first, peer)
  {
    if rest == [] {
      assert first + rest == first;
      assert Prefix(first, peer, n, marked);
    } else {
      var all := first + rest;
      var body := if marked then all[..|all| - 1] else all;
      assert body == Messages(peer[..n]);
      assert first == body[..|first|];
      assert |first| <= n;
      assert Messages(peer[..n])[..|first|] == Messages(peer[..|first|]);
      assert Prefix(first, peer, |first|, false);
    }
  }

  /** What the peer sends in a schedule. */
  function DataOf(events: seq<Event>): seq<Data> {
    if events == [] then []
    else
      var last := events[|events| - 1];
      DataOf(events[..|events| - 1]) + (if last.PeerData? then [last.data] else [])
  }

  /** What the handler sends in a schedule. */
  function FramesOf(events: seq<Event>): seq<Frame> {
    if events == [] then []
    else
      var last := events[|events| - 1];
      FramesOf(events[..|events| - 1]) + (if last.HandlerSends? then [last.frame] else [])
  }

  lemma {:induction false} OneMoreEvent(events: seq<Event>, i: nat)
    requires i < |events|
    ensures DataOf(events[..i + 1]) == DataOf(events[..i]) + (if events[i].PeerData? then [events[i].data] else [])
    ensures FramesOf(events[..i + 1])
         == FramesOf(events[..i]) + (if events[i].HandlerSends? then [events[i].frame] else [])
  {
    assert events[..i + 1][..i] == events[..i];
  }

  class Connection {
    var queue: seq<Incoming>
    var received: seq<Incoming>
    var sent: seq<Frame>
    var closing: bool
    var outgoingOpen: bool
    var running: bool
    var queueDropped: bool
    ghost var peer: seq<Data>
    ghost var kept: nat
    ghost var marked: bool

    constructor ()
      ensures Valid() && running && !closing && peer == [] && sent == [] && received == [] && queue == []
    {
      queue, received, sent, peer, kept, marked := [], [], [], [], 0, false;
      closing, outgoingOpen, running, queueDropped := false, true, true, false;
    }

    /**
     * The frames end with their only close frame, and the loop remembers that it sent one; the
     * handler gets a prefix of the peer's messages, all of them until the loop is closing, then at
     * most one marker, which ends the loop.
     */
    ghost predicate Valid()
      reads this
    {
      && |queue| <= CAPACITY
      && CloseIsLast(sent)
      && (running ==> (closing <==> Closed(sent)))
      && (queueDropped ==> queue == [])
      && (!queueDropped ==> Prefix(received + queue, peer, kept, marked))
      && (queueDropped ==> SomePrefix(received, peer))
      && (marked ==> !running)
      && (running && !closing && !queueDropped ==> kept == |peer|)
      && (running && !closing ==> outgoingOpen)
    }

    /** `try_send`: the queue takes a message unless it is dropped or full. */
    method Enqueue(item: Incoming) returns (accepted: bool)
      modifies this`queue
      ensures accepted <==> !queueDropped && |old(queue)| < CAPACITY
      ensures queue == if accepted then old(queue) + [item] else old(queue)
    {
      accepted := !queueDropped && |queue| < CAPACITY;
      if accepted {
        queue := queue + [item];
      }
    }

    method SendClose(code: nat, sends: bool)
      requires Valid() && running && !closing
      modifies this`sent, this`closing, this`running
      ensures Valid() && sent == old(sent) + [CloseFrame(code)]
      ensures closing == sends && running == sends
    {
      hide Prefix, SomePrefix;
      sent := sent + [CloseFrame(code)];
      closing, running := sends, sends;
    }

    /**
     * A message of the peer: ignored while closing, else queued; a full queue closes with its own
     * code, and the loop ends without a close frame when the handler has dropped the queue.
     */
    method PeerSends(data: Data, sends: bool)
      requires Valid() && running
      modifies this`queue, this`sent, this`closing, this`running, this`peer, this`kept
      ensures Valid() && peer == old(peer) + [data]
      ensures var full := |old(queue)| >= CAPACITY;
        && queue == (if old(closing) || queueDropped || full then old(queue) else old(queue) + [Message(data)])
        && sent == (if !old(closing) && !queueDropped && full then old(sent) + [CloseFrame(QUEUE_FULL)]
                    else old(sent))
        && (running <==> old(closing) || (!queueDropped && (full ==> sends)))
        && (closing <==> old(closing) || (!queueDropped && full && sends))
    {
      MorePeer(received + queue, peer, kept, marked, data);
      if queueDropped {
        ghost var n: nat, m: bool :| Prefix(received, peer, n, m);
        MorePeer(received, peer, n, m, data);
      }
      ghost var before := peer;
      peer := peer + [data];
      if !closing {
        var accepted := Enqueue(Message(data));
        if accepted {
          assert received + queue == received + old(queue) + [Message(data)];
          kept := kept + 1;
        } else if queueDropped {
          running := false;
        } else {
          sent := sent + [CloseFrame(QUEUE_FULL)];
          closing, running := sends, sends;
        }
      }
    }

    /** The end of the peer's side: a marker if the queue takes it, and the loop ends. */
    method PeerEnds(code: nat)
      requires Valid() && running
      modifies this`queue, this`running, this`marked
      ensures Valid() && !running
      ensures queue == if !queueDropped && |old(queue)| < CAPACITY then old(queue) + [CloseMarker(code)] else old(queue)
    {
      var accepted := Enqueue(CloseMarker(code));
      if accepted {
        assert received + queue == received + old(queue) + [CloseMarker(code)];
        assert (received + old(queue) + [CloseMarker(code)])[..|received + old(queue)|] == received + old(queue);
        marked := true;
      }
      running := false;
    }

    method HandlerSend(frame: Frame, sends: bool)
      requires Valid() && running
      modifies this`sent, this`closing, this`running
      ensures Valid()
      ensures sent == if old(closing) then old(sent) else old(sent) + [frame]
      ensures running <==> old(closing) || sends
      ensures closing <==> old(closing) || (frame.CloseFrame? && sends)
    {
      hide Prefix, SomePrefix;
      if !closing {
        if frame.CloseFrame? {
          SendClose(frame.code, sends);
        } else {
          sent := sent + [frame];
          running := sends;
        }
      }
    }

    /** The handler takes the next message, also after the loop has ended. */
    method HandlerReceive()
      requires Valid()
      modifies this`queue, this`received
      ensures Valid() && received + queue == old(received + queue)
      ensures received == if old(queue) == [] then old(received) else old(received) + [old(queue)[0]]
    {
      if queue != [] {
        ghost var all := received + queue;
        assert received + [queue[0]] + queue[1..] == all;
        received, queue := received + [queue[0]], queue[1..];
      }
    }

    /** The handler's end of the queue is dropped, with what was left in it. */
    method HandlerDrop()
      requires Valid()
      modifies this`queue, this`queueDropped
      ensures Valid() && queueDropped && queue == []
    {
      if !queueDropped {
        PrefixOfPrefix(received, queue, peer, kept, marked);
        queue, queueDropped := [], true;
      }
    }

    /** One turn of the schedule; after `break` only the handler goes on. */
    method Turn(event: Event)
      requires Valid()
      modifies this
      ensures Valid()
      ensures old(sent) <= sent && old(received) <= received && old(peer) <= peer
      ensures !old(running) ==> !running && sent == old(sent) && peer == old(peer)
      ensures old(closing) && old(running) ==> closing
      ensures old(queueDropped) ==> queueDropped
      // What each event does.
      ensures event.HandlerReceives? ==>
        && received + queue == old(received + queue) && running == old(running) && closing == old(closing)
        && received == if old(queue) == [] then old(received) else old(received) + [old(queue)[0]]
      ensures event.HandlerDropsQueue? ==> queueDropped && received == old(received) && running == old(running)
      ensures event.PeerData? && old(running) ==> peer == old(peer) + [event.data]
      ensures event.PeerData? && old(running) && running && !closing ==>
        queue == old(queue) + [Message(event.data)] && sent == old(sent)
      ensures event.PeerClose? && old(running) && !queueDropped && |old(queue)| < CAPACITY ==>
        queue == old(queue) + [CloseMarker(event.code)]
      ensures event.ReceiveError? || event.Disconnected? ==>
        (old(running) && !queueDropped && |old(queue)| < CAPACITY ==> queue == old(queue) + [CloseMarker(ABNORMAL)])
      ensures event.PeerClose? || event.ReceiveError? || event.Disconnected? ==> !running
      ensures event.HandlerSends? && old(running) && !old(closing) ==> sent == old(sent) + [event.frame]
      ensures event.HandlerSends? && old(closing) ==> sent == old(sent)
      ensures event.HandlerGone? ==> (running <==> old(running) && closing)
      ensures event.CloseTimeout? ==> (running <==> old(running) && !closing)
      ensures !event.PeerData? ==> peer == old(peer) && (event.HandlerSends? || sent == old(sent))
    {
      hide Prefix, SomePrefix, CloseIsLast, Closed;
      if event.HandlerReceives? {
        HandlerReceive();
      } else if event.HandlerDropsQueue? {
        HandlerDrop();
      } else if running {
        if event.PeerData? {
          PeerSends(event.data, event.sends);
        } else if event.PeerClose? {
          PeerEnds(event.code);
        } else if event.ReceiveError? || event.Disconnected? {
          PeerEnds(ABNORMAL);
        } else if event.HandlerSends? {
          if outgoingOpen {
            HandlerSend(event.frame, event.sends);
          }
        } else if event.HandlerGone? {
          SendersGone();
        } else if event.CloseTimeout? {
          Timeout();
        }
      }
    }

    method SendersGone()
      requires Valid() && running
      modifies this`outgoingOpen, this`running
      ensures Valid() && (running <==> closing) && !outgoingOpen
    {
      hide Prefix, SomePrefix, CloseIsLast, Closed;
      outgoingOpen, running := false, closing;
    }

    /** The timer only runs once a close frame was sent. */
    method Timeout()
      requires Valid() && running
      modifies this`running
      ensures Valid() && (running <==> !closing)
    {
      hide Prefix, SomePrefix, CloseIsLast, Closed;
      running := !closing;
    }

    lemma WholeIsHeld()
      requires Valid()
      ensures running && !closing && !queueDropped ==> received + queue == Messages(peer)
    {
      assert peer[..|peer|] == peer;
    }

    /** A whole run, for any schedule. */
    method Serve(events: seq<Event>)
      requires Valid()
      modifies this
      ensures Valid()
      ensures CloseIsLast(sent)
      ensures SomePrefix(received, peer)
      // As long as nothing closed or ended the loop, nothing was lost in either direction.
      ensures running ==> peer == old(peer) + DataOf(events)
      ensures running && !closing && !queueDropped ==> received + queue == Messages(peer)
      ensures running && !closing ==> sent == old(sent) + FramesOf(events)
    {
      hide Prefix, SomePrefix;
      for i := 0 to |events|
        invariant Valid()
        invariant running ==> peer == old(peer) + DataOf(events[..i])
        invariant running && !closing ==> sent == old(sent) + FramesOf(events[..i])
      {
        OneMoreEvent(events, i);
        Turn(events[i]);
      }
      assert events[..|events|] == events;
      WholeIsHeld();
      if !queueDropped {
        PrefixOfPrefix(received, queue, peer, kept, marked);
      }
    }
  }
}
