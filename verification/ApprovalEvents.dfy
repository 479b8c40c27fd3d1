/**
  The approval events of one turn as the source keeps them: a queue changed in place, registered under
  one lock with the wire response, and delivered by a loop that keeps the front until it was sent.
*/
module ApprovalEvents {
  import opened Prelude
  import opened Approvals

  /** A turn's sink, which takes so many more events and then none. */
  class EventSink {
    var emitted: seq<Notice>
    var room: nat

    constructor (room: nat)
      ensures emitted == [] && this.room == room
    {
      emitted, this.room := [], room;
    }

    method Emit(event: Notice) returns (accepted: bool)
      modifies this
      ensures accepted <==> old(room) > 0
      ensures emitted == if accepted then old(emitted) + [event] else old(emitted)
      ensures room == if accepted then old(room) - 1 else 0
    {
      accepted := room > 0;
      if accepted {
        emitted, room := emitted + [event], room - 1;
      }
    }
  }

  /** One flush that nothing interleaves with: step by step until the queue or the sink gives out. */
  function Flushed(q: Queue, room: nat): Queue
    decreases |q.queued|
  {
    if q.queued == [] then FlushNext(FlushNext(q, Enter), Peek)
    else
      var peeked := FlushNext(FlushNext(q, Enter), Peek);
      if room == 0 then FlushNext(peeked, Emit(false))
      else
        var popped := FlushNext(FlushNext(peeked, Emit(true)), Pop);
        if |popped.queued| < |q.queued| then Flushed(popped.(gate := Free), room - 1) else popped
  }

  /** The queue once its front was delivered. */
  function Delivered(q: Queue): Queue
    requires q.queued != []
  {
    q.(emitted := q.emitted + [q.queued[0]], queued := q.queued[1..])
  }

  lemma OneDelivered(q: Queue, room: nat)
    requires q.gate.Free? && q.queued != [] && room > 0
    ensures Flushed(q, room) == Flushed(Delivered(q), room - 1)
    ensures Delivered(q).emitted + Delivered(q).queued == q.emitted + q.queued
  {
  }

  function Lesser(a: nat, b: nat): nat {
    if a < b then a else b
  }

  /** It delivers, in order, as many as the sink takes, and keeps the rest in order. */
  lemma {:induction false} FlushedDeliversInOrder(q: Queue, room: nat)
    requires q.gate.Free?
    ensures var n := Lesser(room, |q.queued|);
      Flushed(q, room) == q.(emitted := q.emitted + q.queued[..n], queued := q.queued[n..])
    decreases |q.queued|
  {
    if q.queued == [] || room == 0 {
      assert q.emitted + q.queued[..0] == q.emitted;
    } else {
      var n := Lesser(room - 1, |q.queued| - 1);
      OneDelivered(q, room);
      FlushedDeliversInOrder(Delivered(q), room - 1);
      FrontFirst(q.emitted, q.queued, n);
      assert Lesser(room, |q.queued|) == n + 1;
    }
  }

  lemma FrontFirst(emitted: seq<Notice>, queued: seq<Notice>, n: nat)
    requires n < |queued|
    ensures emitted + [queued[0]] + queued[1..][..n] == emitted + queued[..n + 1]
    ensures queued[1..][n..] == queued[n + 1..]
  {
  }

  class ApprovalQueue {
    var queued: seq<Notice>
    var busy: bool
    /** Every event ever registered. */
    ghost var registered: seq<Notice>

    ghost function View(sink: EventSink): Queue
      reads this, sink
    {
      Queue(registered, queued, sink.emitted, if busy then Delivering else Free)
    }

    constructor ()
      ensures queued == [] && registered == [] && !busy
    {
      queued, registered, busy := [], [], false;
    }

    method Register(event: Notice)
      modifies this`queued, this`registered
      ensures queued == old(queued) + [event] && registered == old(registered) + [event]
    {
      queued := queued + [event];
      registered := registered + [event];
    }

    /** A resolution is registered exactly when the wire took the response it belongs to. */
    method RecordResponse(event: Notice, taken: bool) returns (ok: bool)
      modifies this`queued, this`registered
      ensures ok == taken
      ensures queued == if taken then old(queued) + [event] else old(queued)
      ensures registered == if taken then old(registered) + [event] else old(registered)
    {
      if !taken {
        return false;
      }
      Register(event);
      return true;
    }

    /** Emits from the front, popping an event only once the sink took it. */
    method Deliver(sink: EventSink) returns (ok: bool)
      requires !busy
      modifies this`queued, this`busy, sink
      ensures View(sink) == Flushed(old(View(sink)), old(sink.room))
      ensures ok <==> queued == []
      ensures sink.emitted + queued == old(sink.emitted + queued)
    {
      busy, ok := true, true;
      ghost var whole := Flushed(View(sink).(gate := Free), sink.room);
      while queued != []
        invariant busy && ok
        invariant Flushed(View(sink).(gate := Free), sink.room) == whole
        invariant sink.emitted + queued == old(sink.emitted + queued)
        decreases |queued|
      {
        if sink.room > 0 {
          OneDelivered(View(sink).(gate := Free), sink.room);
        }
        var accepted := sink.Emit(queued[0]);
        if !accepted {
          ok, busy := false, false;
          return;
        }
        queued := queued[1..];
      }
      busy := false;
    }
  }
}
