/** The bounded, closable queue between the hub and one WebSocket writer. */
module Mailbox {
  import opened Rooms

  const SEND_BUFFER := 32

  /** `taken` is what the writer has received so far, `queue` what waits in the channel. */
  datatype Box<T> = Box(taken: seq<T>, queue: seq<T>, closed: bool) {
    function Accepted(): seq<T> {
      taken + queue
    }

    predicate Open() {
      !closed && |queue| < SEND_BUFFER
    }

    predicate Bounded() {
      |queue| <= SEND_BUFFER
    }

    /** wsPeer.Send: a full or closed box drops the frame. */
    function Offer(f: T): Box<T> {
      if Open() then this.(queue := queue + [f]) else this
    }

    function Close(): Box<T> {
      this.(closed := true)
    }

    /** The writer receives the oldest frame; a closed channel still hands out what it buffers. */
    function Take(): Box<T>
      requires queue != []
    {
      this.(taken := taken + [queue[0]], queue := queue[1..])
    }
  }

  datatype Op<T> = OpSend(frame: T) | OpClose | OpTake

  function Step<T>(b: Box<T>, op: Op<T>): Box<T> {
    match op
    case OpSend(f) => b.Offer(f)
    case OpClose => b.Close()
    case OpTake => if b.queue == [] then b else b.Take()
  }

  function Run<T>(b: Box<T>, ops: seq<Op<T>>): Box<T> {
    if ops == [] then b else Step(Run(b, ops[..|ops| - 1]), ops[|ops| - 1])
  }

  lemma TakeKeepsAccepted<T>(b: Box<T>)
    requires b.queue != []
    ensures b.Take().Accepted() == b.Accepted()
  {
    assert b.queue == [b.queue[0]] + b.queue[1..];
  }

  /** Over any operations: the writer's frames only grow, the accepted frames only grow, at most 32
      wait, and a box that is closed stays closed and accepts nothing more. */
  lemma {:induction false} RunsKeepOrder<T>(b: Box<T>, ops: seq<Op<T>>)
    requires b.Bounded()
    ensures Run(b, ops).Bounded()
    ensures b.taken <= Run(b, ops).taken
    ensures b.Accepted() <= Run(b, ops).Accepted()
    ensures b.closed ==> Run(b, ops).closed && Run(b, ops).Accepted() == b.Accepted()
  {
    if ops != [] {
      var before := Run(b, ops[..|ops| - 1]);
      RunsKeepOrder(b, ops[..|ops| - 1]);
      if ops[|ops| - 1].OpTake? && before.queue != [] {
        TakeKeepsAccepted(before);
      }
      assert before.Accepted() <= Run(b, ops).Accepted();
    }
  }

  /** Only a close closes a box, and a Send that finds the box full leaves it open: whether a frame is
      accepted depends on the operations before it alone. */
  lemma {:induction false} ClosedExactly<T>(b: Box<T>, ops: seq<Op<T>>)
    ensures Run(b, ops).closed <==> b.closed || OpClose in ops
  {
    if ops != [] {
      ClosedExactly(b, ops[..|ops| - 1]);
      assert ops == ops[..|ops| - 1] + [ops[|ops| - 1]];
    }
  }

  /** A Send is refused exactly if a close has come before, or 32 of the accepted frames have not been
      taken yet. */
  lemma {:induction false} AcceptedExactly<T>(b: Box<T>, ops: seq<Op<T>>, f: T)
    requires b.Bounded()
    ensures var before, after := Run(b, ops), Run(b, ops + [OpSend(f)]);
            && after.taken == before.taken && (after.closed <==> b.closed || OpClose in ops)
            && after.Accepted() == before.Accepted() +
                 if b.closed || OpClose in ops || |before.Accepted()| - |before.taken| >= 32 then [] else [f]
  {
    assert (ops + [OpSend(f)])[..|ops|] == ops;
    ClosedExactly(b, ops);
  }

  /** A receive hands out the oldest accepted frame that was not taken yet, before and after a close. */
  lemma {:induction false} TakenExactly<T>(b: Box<T>, ops: seq<Op<T>>)
    requires b.Bounded()
    ensures var before, after := Run(b, ops), Run(b, ops + [OpTake]);
            && after.Accepted() == before.Accepted() && after.closed == before.closed
            && |before.taken| <= |before.Accepted()|
            && after.taken == before.Accepted()[..if |before.taken| < |before.Accepted()| then |before.taken| + 1 else |before.taken|]
  {
    assert (ops + [OpTake])[..|ops|] == ops;
    if Run(b, ops).queue != [] {
      TakeKeepsAccepted(Run(b, ops));
    }
  }

  /** wsPeer. Its id is unique, as a fresh UUID is. */
  class WsPeer<T> {
    const id: PeerId
    const role: Role
    var send: seq<T>
    var closed: bool
    ghost var taken: seq<T>
    ghost var accepted: seq<T>

    ghost function View(): Box<T>
      reads this
    {
      Box(taken, send, closed)
    }

    ghost predicate Valid()
      reads this
    {
      View().Bounded() && accepted == taken + send
    }

    constructor (id: PeerId, role: Role)
      ensures Valid() && this.id == id && this.role == role && View() == Box([], [], false)
    {
      this.id, this.role := id, role;
      send, closed := [], false;
      taken, accepted := [], [];
    }

    method Send(frame: T) returns (ok: bool)
      requires Valid()
      modifies this
      ensures Valid()
      ensures ok <==> !old(closed) && |old(send)| < SEND_BUFFER
      ensures View() == old(View()).Offer(frame)
      ensures closed == old(closed) && taken == old(taken) && send == old(send) + if ok then [frame] else []
      ensures accepted == old(accepted) + if ok then [frame] else []
    {
      if closed {
        return false;
      }
      if |send| < SEND_BUFFER {
        send := send + [frame];
        accepted := accepted + [frame];
        return true;
      }
      return false;
    }

    method CloseSend()
      requires Valid()
      modifies this
      ensures Valid()
      ensures View() == old(View()).Close()
      ensures closed && send == old(send) && taken == old(taken) && accepted == old(accepted)
    {
      if closed {
        return;
      }
      closed := true;
    }

    /** A receive that does not block: `None` while the channel is empty. */
    method Receive() returns (frame: Option<T>)
      requires Valid()
      modifies this
      ensures Valid() && accepted == old(accepted)
      ensures View() == if old(send) == [] then old(View()) else old(View()).Take()
      ensures closed == old(closed)
      ensures old(send) == [] ==> frame == None && send == [] && taken == old(taken)
      ensures old(send) != [] ==> frame == Some(old(send)[0]) && send == old(send)[1..] && taken == old(taken) + [old(send)[0]]
    {
      if send == [] {
        return None;
      }
      frame := Some(send[0]);
      taken := taken + [send[0]];
      send := send[1..];
      assert old(send) == [old(send)[0]] + send;
    }
  }
}
