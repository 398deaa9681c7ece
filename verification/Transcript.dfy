/** What the relay's state says of its run: every record it keeps, and every frame a client gets, read off
    the list of steps.

    Nothing here looks at how a step changes the state. The functions below go through the steps alone,
    and the lemmas say that the state agrees with them after every run.
 */
module Transcript {
  import opened Rooms
  import opened Mailbox
  import opened Hub
  import opened Relay
  import P = Presence
  import R = Roster
  import W = Wire

  // ---------- what a client has said ----------

  /** The place p has registered for. */
  function IdOf(run: seq<Step>, p: PeerId): Option<R.Ident> {
    if run == [] then None
    else
      var step := run[|run| - 1];
      if step.Register? && step.p == p then Some(step.id) else IdOf(run[..|run| - 1], p)
  }

  /** What a step of a connection of this role publishes: its client's message with the role for its `from`,
      a peer-ready, or a bye. */
  function Says(step: Step, role: Role): Option<Envelope> {
    match step
    case Relay(_, kind, payload) => Some(Envelope(kind, Some(role), payload))
    case Announce(_) => Some(Envelope("peer-ready", None, ""))
    case SayBye(_) => Some(Envelope("bye", Some(role), ""))
    case _ => None
  }

  predicate Publishes(step: Step, p: PeerId) {
    (step.Relay? || step.Announce? || step.SayBye?) && step.p == p
  }

  /** The frames p has published, in order: the n-th is for the other role of p's room, and its time is that
      of its step. */
  function Frames(run: seq<Step>, p: PeerId): seq<W.Frame> {
    if run == [] then []
    else
      var before, step := Frames(run[..|run| - 1], p), run[|run| - 1];
      var id := IdOf(run[..|run| - 1], p);
      if Publishes(step, p) && id.Some?
      then before + [W.Published(p, |before|, |run|, id.value.room, if id.value.role == Agent then Phone else Agent, Says(step, id.value.role).value)]
      else before
  }

  lemma {:induction false} RunClock(c: R.Config, run: seq<Step>)
    requires ValidRun(c, run)
    ensures After(c, run).now == |run| + 1
  {
    if run != [] {
      RunClock(c, run[..|run| - 1]);
    }
  }

  lemma IdsStep(c: R.Config, s: State, step: Step)
    requires Enabled(c, s, step)
    ensures RosterAfter(c, s, step).ids == if step.Register? then s.r.ids[step.p := step.id] else s.r.ids
  {
  }

  lemma {:induction false} IdsAreRegistered(c: R.Config, run: seq<Step>, p: PeerId)
    requires ValidRun(c, run)
    ensures IdOf(run, p) == if p in After(c, run).r.ids then Some(After(c, run).r.ids[p]) else None
  {
    if run != [] {
      var before := run[..|run| - 1];
      IdsAreRegistered(c, before, p);
      IdsStep(c, After(c, before), run[|run| - 1]);
    }
  }

  lemma SentStep(c: R.Config, s: State, step: Step, p: PeerId)
    requires Enabled(c, s, step) && p in s.r.ids && p in s.w.sent
    ensures p in WireAfter(c, s, step).sent
    ensures var id, sent := s.r.ids[p], s.w.sent[p];
            WireAfter(c, s, step).sent[p] ==
            if Publishes(step, p)
            then sent + [W.Published(p, |sent|, s.now, id.room, if id.role == Agent then Phone else Agent, Says(step, id.role).value)]
            else sent
  {
  }

  lemma SentStart(c: R.Config, s: State, step: Step, p: PeerId)
    requires Enabled(c, s, step) && s.w.sent.Keys == s.r.ids.Keys && p !in s.r.ids
    ensures p in WireAfter(c, s, step).sent ==> WireAfter(c, s, step).sent[p] == []
    ensures !Publishes(step, p)
  {
  }

  /** After any run, what a connection has published is what its own steps in the run say, in their order. */
  lemma {:induction false} SentIsSaid(c: R.Config, run: seq<Step>, p: PeerId)
    requires c.Valid() && ValidRun(c, run)
    ensures p !in After(c, run).r.ids ==> Frames(run, p) == []
    ensures p in After(c, run).r.ids ==> p in After(c, run).w.sent && After(c, run).w.sent[p] == Frames(run, p)
  {
    if run != [] {
      var before, step := run[..|run| - 1], run[|run| - 1];
      SentIsSaid(c, before, p);
      RunClock(c, before);
      IdsAreRegistered(c, before, p);
      IdsStep(c, After(c, before), step);
      assert After(c, before).w.sent.Keys == After(c, before).r.ids.Keys by { RunInv(c, before); }
      assert p in After(c, run).r.ids ==> p in After(c, run).w.sent by { RunInv(c, run); }
      if p in After(c, before).r.ids {
        SentStep(c, After(c, before), step, p);
      } else {
        SentStart(c, After(c, before), step, p);
      }
    }
  }

  // ---------- what a client gets ----------

  /** This frame was published by the step at its time, by a connection of the other role of q's room. */
  predicate SaidTo(run: seq<Step>, q: PeerId, f: W.Frame) {
    && f.Published? && 0 < f.at <= |run| && Publishes(run[f.at - 1], f.src)
    && IdOf(run, f.src).Some? && IdOf(run, q).Some?
    && IdOf(run, f.src).value.room == IdOf(run, q).value.room
    && IdOf(run, f.src).value.role == (if IdOf(run, q).value.role == Agent then Phone else Agent)
    && Says(run[f.at - 1], IdOf(run, f.src).value.role) == Some(f.env)
  }

  lemma {:induction false} IdStays(c: R.Config, run: seq<Step>, n: nat, p: PeerId)
    requires ValidRun(c, run) && n <= |run| && IdOf(run[..n], p).Some?
    ensures IdOf(run, p) == IdOf(run[..n], p)
  {
    if n == |run| {
      assert run[..n] == run;
    } else {
      var before := run[..|run| - 1];
      assert before[..n] == run[..n];
      IdStays(c, before, n, p);
      IdsAreRegistered(c, before, p);
    }
  }

  /** A frame of p, published by the step at its time. */
  predicate SaidBy(run: seq<Step>, p: PeerId, f: W.Frame) {
    && f.Published? && f.src == p && 0 < f.at <= |run| && Publishes(run[f.at - 1], p)
    && IdOf(run, p).Some? && Says(run[f.at - 1], IdOf(run, p).value.role) == Some(f.env)
  }

  lemma StillSaid(c: R.Config, run: seq<Step>, p: PeerId, f: W.Frame)
    requires run != [] && ValidRun(c, run) && SaidBy(run[..|run| - 1], p, f)
    ensures SaidBy(run, p, f)
  {
    IdStays(c, run, |run| - 1, p);
  }

  lemma {:induction false} FrameOfStep(c: R.Config, run: seq<Step>, p: PeerId, n: nat)
    requires ValidRun(c, run) && n < |Frames(run, p)|
    ensures SaidBy(run, p, Frames(run, p)[n]) && Frames(run, p)[n].num == n
  {
    var before := run[..|run| - 1];
    if n < |Frames(before, p)| {
      FrameOfStep(c, before, p, n);
      StillSaid(c, run, p, Frames(before, p)[n]);
    } else {
      IdStays(c, run, |run| - 1, p);
    }
  }

  /** Later frames have later times. */
  lemma {:induction false} FramesInTime(c: R.Config, run: seq<Step>, p: PeerId, m: nat, n: nat)
    requires ValidRun(c, run) && m < n < |Frames(run, p)|
    ensures Frames(run, p)[m].Published? && Frames(run, p)[n].Published? && Frames(run, p)[m].at < Frames(run, p)[n].at
  {
    var before := run[..|run| - 1];
    if n < |Frames(before, p)| {
      FramesInTime(c, before, p, m, n);
    } else {
      FrameOfStep(c, before, p, m);
    }
  }

  lemma PublishedIsSaid(c: R.Config, run: seq<Step>, q: PeerId, f: W.Frame)
    requires c.Valid() && ValidRun(c, run) && W.FromCounterpart(After(c, run).r.ids, After(c, run).w.sent, q, f)
    ensures SaidTo(run, q, f) && f.num < |Frames(run, f.src)| && Frames(run, f.src)[f.num] == f
  {
    SentIsSaid(c, run, f.src);
    IdsAreRegistered(c, run, f.src);
    IdsAreRegistered(c, run, q);
    FrameOfStep(c, run, f.src, f.num);
  }

  /** Every frame that a client gets from another was said by a client of the other role in its own room: it is
      that client's message as it was sent, with its role for `from`, or its peer-ready or bye. What it gets
      of one other client comes in the order in which that client said it, nothing twice. */
  lemma TakenIsWhatWasSaid(c: R.Config, run: seq<Step>, q: PeerId)
    requires c.Valid() && ValidRun(c, run) && q in After(c, run).w.boxes
    ensures var taken := After(c, run).w.boxes[q].taken;
            && (forall i | 0 <= i < |taken| :: taken[i].Published? ==> SaidTo(run, q, taken[i]))
            && (forall i, j | 0 <= i < j < |taken| ::
                  taken[i].Published? && taken[j].Published? && taken[i].src == taken[j].src ==> taken[i].at < taken[j].at)
  {
    var s := After(c, run);
    var taken := s.w.boxes[q].taken;
    RelayIsOrderedAndIsolated(c, run, q);
    forall i | 0 <= i < |taken| && taken[i].Published?
      ensures SaidTo(run, q, taken[i]) && W.FromCounterpart(s.r.ids, s.w.sent, q, taken[i])
    {
      assert W.FromCounterpart(s.r.ids, s.w.sent, q, taken[i]);
      PublishedIsSaid(c, run, q, taken[i]);
    }
    forall i, j | 0 <= i < j < |taken| && taken[i].Published? && taken[j].Published? && taken[i].src == taken[j].src
      ensures taken[i].at < taken[j].at
    {
      assert W.Before(taken[i], taken[j]);
      PublishedIsSaid(c, run, q, taken[i]);
      PublishedIsSaid(c, run, q, taken[j]);
      FramesInTime(c, run, taken[j].src, taken[i].num, taken[j].num);
    }
  }

  // ---------- what happens to a box ----------

  /** What a step does to q's box: q's goroutine writes to its own client or closes, the writer takes, or a
      carrier sends the frame at its head to the receiver it has looked up. */
  function OpOf(s: State, step: Step, q: PeerId): Option<Op<W.Frame>> {
    match step
    case Greet(p) => if p == q then Some(OpSend(W.Own(Envelope("peer-ready", None, "")))) else None
    case Reject(p) => if p == q then Some(OpSend(W.Own(Envelope("error", None, "malformed message")))) else None
    case CloseSend(p) => if p == q then Some(OpClose) else None
    case Take(p) => if p == q then Some(OpTake) else None
    case Send(k) =>
      if k in s.w.hands && s.w.hands[k] == q && k in s.w.queues && s.w.queues[k] != [] then Some(OpSend(s.w.queues[k][0])) else None
    case _ => None
  }

  ghost function Ops(c: R.Config, run: seq<Step>, q: PeerId): seq<Op<W.Frame>>
    requires ValidRun(c, run)
  {
    if run == [] then []
    else
      var op := OpOf(After(c, run[..|run| - 1]), run[|run| - 1], q);
      Ops(c, run[..|run| - 1], q) + if op.Some? then [op.value] else []
  }

  lemma BoxStep(c: R.Config, s: State, step: Step, q: PeerId)
    requires Enabled(c, s, step) && q in s.w.boxes && q in s.r.ids
    ensures q in WireAfter(c, s, step).boxes
    ensures var op := OpOf(s, step, q);
            WireAfter(c, s, step).boxes[q] == if op.Some? then Mailbox.Step(s.w.boxes[q], op.value) else s.w.boxes[q]
  {
  }

  /** Nothing is sent to a connection that has not registered. */
  lemma NoOpYet(c: R.Config, s: State, step: Step, q: PeerId)
    requires W.HandInv(s.r.ids, s.w.queues, s.w.hands) && s.r.phases.Keys == s.r.ids.Keys && s.w.boxes.Keys == s.r.ids.Keys
    requires Enabled(c, s, step) && q !in s.r.ids
    ensures OpOf(s, step, q).None?
  {
    if step.Send? && step.k in s.w.hands {
      assert W.HandOk(s.r.ids, s.w.queues, step.k, s.w.hands[step.k]);
    }
  }

  lemma BoxStart(c: R.Config, s: State, step: Step, q: PeerId)
    requires Enabled(c, s, step) && q !in s.r.ids && s.w.boxes.Keys == s.r.ids.Keys && OpOf(s, step, q).None?
    ensures q in WireAfter(c, s, step).boxes ==> WireAfter(c, s, step).boxes[q] == Box([], [], false)
  {
  }

  lemma NewcomerHasNoOps(c: R.Config, run: seq<Step>, step: Step, q: PeerId)
    requires c.Valid() && ValidRun(c, run) && Enabled(c, After(c, run), step) && q !in After(c, run).r.ids
    ensures OpOf(After(c, run), step, q).None?
    ensures After(c, run).w.boxes.Keys == After(c, run).r.ids.Keys && After(c, run).w.offeredAt.Keys == After(c, run).r.ids.Keys
  {
    RunInv(c, run);
    NoOpYet(c, After(c, run), step, q);
  }

  lemma BoxesAreTheirs(c: R.Config, run: seq<Step>, q: PeerId)
    requires c.Valid() && ValidRun(c, run)
    ensures q in After(c, run).r.ids <==> q in After(c, run).w.boxes
    ensures q in After(c, run).r.ids <==> q in After(c, run).w.offeredAt
  {
    RunInv(c, run);
  }

  ghost predicate RanFromEmpty(c: R.Config, run: seq<Step>, q: PeerId)
    requires ValidRun(c, run)
  {
    && q in After(c, run).w.boxes
    && After(c, run).w.boxes[q] == Mailbox.Run(Box([], [], false), Ops(c, run, q))
  }

  lemma BoxRunsOn(c: R.Config, run: seq<Step>, q: PeerId)
    requires run != [] && ValidRun(c, run) && q in After(c, run[..|run| - 1]).r.ids && RanFromEmpty(c, run[..|run| - 1], q)
    ensures RanFromEmpty(c, run, q)
  {
    var before, step := run[..|run| - 1], run[|run| - 1];
    BoxStep(c, After(c, before), step, q);
    var op := OpOf(After(c, before), step, q);
    if op.Some? {
      OneMoreOp(Box([], [], false), Ops(c, before, q), op.value);
      assert Ops(c, run, q) == Ops(c, before, q) + [op.value];
    } else {
      assert Ops(c, run, q) == Ops(c, before, q);
    }
    assert After(c, run).w == WireAfter(c, After(c, before), step);
  }

  /** After any run, a box is what these operations make of an empty one. */
  lemma {:induction false} BoxIsItsRun(c: R.Config, run: seq<Step>, q: PeerId)
    requires c.Valid() && ValidRun(c, run)
    ensures q !in After(c, run).r.ids ==> Ops(c, run, q) == []
    ensures q in After(c, run).r.ids ==> RanFromEmpty(c, run, q)
  {
    if run != [] {
      var before, step := run[..|run| - 1], run[|run| - 1];
      BoxIsItsRun(c, before, q);
      BoxesAreTheirs(c, run, q);
      IdsStep(c, After(c, before), step);
      if q in After(c, before).r.ids {
        BoxRunsOn(c, run, q);
      } else {
        NewcomerHasNoOps(c, before, step, q);
        BoxStart(c, After(c, before), step, q);
      }
    }
  }

  lemma OneMoreOp<T>(b: Box<T>, ops: seq<Op<T>>, op: Op<T>)
    ensures Mailbox.Run(b, ops + [op]) == Mailbox.Step(Mailbox.Run(b, ops), op)
  {
    assert (ops + [op])[..|ops|] == ops;
  }

  lemma {:induction false} ClosesAreSteps(c: R.Config, run: seq<Step>, q: PeerId)
    requires ValidRun(c, run)
    ensures OpClose in Ops(c, run, q) <==> CloseSend(q) in run
  {
    if run != [] {
      var before, step := run[..|run| - 1], run[|run| - 1];
      ClosesAreSteps(c, before, q);
      var op := OpOf(After(c, before), step, q);
      assert op == Some(OpClose) <==> step == CloseSend(q);
      assert CloseSend(q) in run <==> CloseSend(q) in before || step == CloseSend(q);
    }
  }

  /** A box is closed if and only if its own goroutine has closed it; a full box only drops the frame. */
  lemma ClosedExactlyByOwner(c: R.Config, run: seq<Step>, q: PeerId)
    requires c.Valid() && ValidRun(c, run) && q in After(c, run).w.boxes
    ensures After(c, run).w.boxes[q].closed <==> CloseSend(q) in run
  {
    BoxesAreTheirs(c, run, q);
    BoxIsItsRun(c, run, q);
    ClosedExactly(Box([], [], false), Ops(c, run, q));
    ClosesAreSteps(c, run, q);
  }

  lemma {:induction false} AcceptedWasSent<T>(ops: seq<Op<T>>, f: T)
    requires f in Mailbox.Run(Box([], [], false), ops).Accepted()
    ensures OpSend(f) in ops
  {
    if ops != [] {
      var before := Mailbox.Run(Box([], [], false), ops[..|ops| - 1]);
      if ops[|ops| - 1].OpTake? && before.queue != [] {
        TakeKeepsAccepted(before);
      }
      if f in before.Accepted() {
        AcceptedWasSent(ops[..|ops| - 1], f);
      }
    }
  }

  lemma {:induction false} OwnSendsAreSteps(c: R.Config, run: seq<Step>, q: PeerId, f: W.Frame)
    requires ValidRun(c, run) && OpSend(f) in Ops(c, run, q) && f.Own?
    ensures || (f.env == Envelope("peer-ready", None, "") && Greet(q) in run)
            || (f.env == Envelope("error", None, "malformed message") && Reject(q) in run)
  {
    var before, step := run[..|run| - 1], run[|run| - 1];
    if OpSend(f) in Ops(c, before, q) {
      OwnSendsAreSteps(c, before, q, f);
    } else {
      assert OpOf(After(c, before), step, q) == Some(OpSend(f));
      assert !step.Send?;
    }
  }

  /** Whatever else a client gets is its own goroutine's peer-ready, or its answer to a malformed message. */
  lemma OwnFramesAreWritten(c: R.Config, run: seq<Step>, q: PeerId, i: nat)
    requires c.Valid() && ValidRun(c, run) && q in After(c, run).w.boxes
    requires i < |After(c, run).w.boxes[q].taken| && After(c, run).w.boxes[q].taken[i].Own?
    ensures var env := After(c, run).w.boxes[q].taken[i].env;
            || (env == Envelope("peer-ready", None, "") && Greet(q) in run)
            || (env == Envelope("error", None, "malformed message") && Reject(q) in run)
  {
    BoxesAreTheirs(c, run, q);
    BoxIsItsRun(c, run, q);
    var b := After(c, run).w.boxes[q];
    assert b.Accepted()[i] == b.taken[i];
    AcceptedWasSent(Ops(c, run, q), b.taken[i]);
    OwnSendsAreSteps(c, run, q, b.taken[i]);
  }

  // ---------- peer-ready ----------

  /** The time of the last step that offered q a peer-ready, or 0. */
  ghost function OfferedAt(c: R.Config, run: seq<Step>, q: PeerId): nat
    requires ValidRun(c, run)
  {
    if run == [] then 0
    else
      var op := OpOf(After(c, run[..|run| - 1]), run[|run| - 1], q);
      if op.Some? && op.value.OpSend? && op.value.frame.env == Envelope("peer-ready", None, "") then |run|
      else OfferedAt(c, run[..|run| - 1], q)
  }

  /** The time at which q was counted in, or 0. */
  function CountedInAt(run: seq<Step>, q: PeerId): nat {
    if run == [] then 0 else if run[|run| - 1] == CountIn(q) then |run| else CountedInAt(run[..|run| - 1], q)
  }

  lemma OfferedStep(c: R.Config, s: State, step: Step, q: PeerId)
    requires Enabled(c, s, step) && q in s.r.ids && q in s.w.offeredAt
    ensures q in WireAfter(c, s, step).offeredAt
    ensures var op := OpOf(s, step, q);
            WireAfter(c, s, step).offeredAt[q] ==
            if op.Some? && op.value.OpSend? && op.value.frame.env == Envelope("peer-ready", None, "") then s.now else s.w.offeredAt[q]
  {
  }

  lemma OfferedStart(c: R.Config, s: State, step: Step, q: PeerId)
    requires Enabled(c, s, step) && q !in s.r.ids && s.w.offeredAt.Keys == s.r.ids.Keys && OpOf(s, step, q).None?
    ensures q in WireAfter(c, s, step).offeredAt ==> WireAfter(c, s, step).offeredAt[q] == 0
  {
  }

  lemma {:induction false} OffersAreSteps(c: R.Config, run: seq<Step>, q: PeerId)
    requires c.Valid() && ValidRun(c, run)
    ensures q !in After(c, run).r.ids ==> OfferedAt(c, run, q) == 0
    ensures q in After(c, run).r.ids ==> q in After(c, run).w.offeredAt && After(c, run).w.offeredAt[q] == OfferedAt(c, run, q)
  {
    if run != [] {
      var before, step := run[..|run| - 1], run[|run| - 1];
      var s := After(c, before);
      OffersAreSteps(c, before, q);
      RunClock(c, before);
      BoxesAreTheirs(c, run, q);
      IdsStep(c, s, step);
      if q in s.r.ids {
        OfferedStep(c, s, step, q);
      } else {
        NewcomerHasNoOps(c, before, step, q);
        OfferedStart(c, s, step, q);
      }
    }
  }

  lemma PresentStep(c: R.Config, s: State, step: Step, q: PeerId)
    requires Enabled(c, s, step) && s.r.presentAt.Keys == s.r.ids.Keys
    ensures var presentAt' := RosterAfter(c, s, step).presentAt;
            && (q in presentAt' <==> q in s.r.presentAt || (step.Register? && step.p == q))
            && (q in presentAt' ==> presentAt'[q] == if step == CountIn(q) then s.now else if q in s.r.presentAt then s.r.presentAt[q] else 0)
    ensures q !in s.r.ids ==> step != CountIn(q)
  {
  }

  lemma {:induction false} PresenceIsCountedIn(c: R.Config, run: seq<Step>, q: PeerId)
    requires c.Valid() && ValidRun(c, run)
    ensures q !in After(c, run).r.presentAt ==> CountedInAt(run, q) == 0
    ensures q in After(c, run).r.presentAt ==> After(c, run).r.presentAt[q] == CountedInAt(run, q)
  {
    if run != [] {
      var before := run[..|run| - 1];
      PresenceIsCountedIn(c, before, q);
      RunClock(c, before);
      assert After(c, before).r.presentAt.Keys == After(c, before).r.ids.Keys by { RunInv(c, before); }
      PresentStep(c, After(c, before), run[|run| - 1], q);
    }
  }

  /** A peer-ready has been offered to q since, or, with pub/sub, one published since for q's place is on its
      way to q's instance. */
  ghost predicate ToldSince(c: R.Config, run: seq<Step>, q: PeerId, since: nat)
    requires ValidRun(c, run)
  {
    || OfferedAt(c, run, q) > since
    || (c.mode.PubSub? && IdOf(run, q).Some?
        && var k, id := W.ByInstance(IdOf(run, q).value.inst), IdOf(run, q).value;
           k in After(c, run).w.queues && exists f | f in After(c, run).w.queues[k] ::
             f.Published? && f.env == Envelope("peer-ready", None, "") && f.room == id.room && f.target == id.role && f.at > since)
  }

  lemma ToldIsToldSince(c: R.Config, run: seq<Step>, q: PeerId, since: nat)
    requires c.Valid() && ValidRun(c, run) && Told(c, After(c, run), q, since)
    ensures ToldSince(c, run, q, since)
  {
    var s := After(c, run);
    OffersAreSteps(c, run, q);
    IdsAreRegistered(c, run, q);
    if s.w.offeredAt[q] <= since {
      var k := W.ByInstance(s.r.ids[q].inst);
      var i :| 0 <= i < |s.w.queues[k]| && IsReadyFor(s.r.ids[q], since, s.w.queues[k][i]);
      assert s.w.queues[k][i] in s.w.queues[k];
    }
  }

  /** No lost peer-ready, said of the steps: an agent and a phone that hold their slots of one room and have
      both finished Join have each been offered a peer-ready by a step after both were counted in, or with
      pub/sub one published after that waits at their instance. */
  lemma BothAreTold(c: R.Config, run: seq<Step>, a: PeerId, b: PeerId)
    requires c.Valid() && ValidRun(c, run)
    requires var s := After(c, run);
             && InPhase(s, a, R.Live) && InPhase(s, b, R.Live) && R.Holds(s.r, a) && R.Holds(s.r, b)
             && s.r.ids[a].room == s.r.ids[b].room && s.r.ids[a].role == Agent && s.r.ids[b].role == Phone
    ensures CountedInAt(run, a) > 0 && CountedInAt(run, b) > 0
    ensures ToldSince(c, run, a, CountedInAt(run, a)) && ToldSince(c, run, a, CountedInAt(run, b))
    ensures ToldSince(c, run, b, CountedInAt(run, a)) && ToldSince(c, run, b, CountedInAt(run, b))
  {
    NoLostPeerReady(c, run, a, b);
    PresenceIsCountedIn(c, run, a);
    PresenceIsCountedIn(c, run, b);
    assert CountedInAt(run, a) > 0 && CountedInAt(run, b) > 0 by { RunInv(c, run); }
    ToldIsToldSince(c, run, a, CountedInAt(run, a));
    ToldIsToldSince(c, run, a, CountedInAt(run, b));
    ToldIsToldSince(c, run, b, CountedInAt(run, a));
    ToldIsToldSince(c, run, b, CountedInAt(run, b));
  }

  // ---------- presence calls and callbacks ----------

  /** The presence calls of the run, in their order. */
  function Calls(run: seq<Step>): seq<P.Event> {
    if run == [] then []
    else
      var before, step := run[..|run| - 1], run[|run| - 1];
      match step
      case CountIn(p) => Calls(before) + if IdOf(before, p).Some? then [P.Join(p, IdOf(before, p).value.room, IdOf(before, p).value.role)] else []
      case CountOut(p, _) => Calls(before) + if IdOf(before, p).Some? then [P.Leave(p, IdOf(before, p).value.room, IdOf(before, p).value.role)] else []
      case _ => Calls(before)
  }

  /** How they ended. */
  function Outcomes(run: seq<Step>): seq<Outcome> {
    if run == [] then []
    else
      var before, step := run[..|run| - 1], run[|run| - 1];
      match step
      case CountIn(p) => Outcomes(before) + if IdOf(before, p).Some? then [Done] else []
      case CountOut(p, out) => Outcomes(before) + if IdOf(before, p).Some? then [out] else []
      case _ => Outcomes(before)
  }

  /** The rooms for which the callback was called. */
  function Endings(run: seq<Step>): seq<RoomId> {
    if run == [] then []
    else
      var before, step := run[..|run| - 1], run[|run| - 1];
      if step.Signal? && IdOf(before, step.p).Some? then Endings(before) + [IdOf(before, step.p).value.room] else Endings(before)
  }

  lemma LogStep(c: R.Config, s: State, step: Step)
    requires Enabled(c, s, step)
    ensures step.CountIn? || step.CountOut? || step.Signal? ==> step.p in s.r.ids
    ensures RosterAfter(c, s, step).log ==
            match step
            case CountIn(p) => s.r.log + [P.Join(p, s.r.ids[p].room, s.r.ids[p].role)]
            case CountOut(p, _) => s.r.log + [P.Leave(p, s.r.ids[p].room, s.r.ids[p].role)]
            case _ => s.r.log
    ensures RosterAfter(c, s, step).outs ==
            match step
            case CountIn(_) => s.r.outs + [Done]
            case CountOut(_, out) => s.r.outs + [out]
            case _ => s.r.outs
  {
  }

  /** After any run, the presence calls on record are those of the run, with their outcomes, and so are the
      callbacks. */
  lemma {:induction false} LogIsTheRun(c: R.Config, run: seq<Step>)
    requires ValidRun(c, run)
    ensures After(c, run).r.log == Calls(run) && After(c, run).r.outs == Outcomes(run)
    ensures After(c, run).ended == Endings(run)
  {
    if run != [] {
      var before, step := run[..|run| - 1], run[|run| - 1];
      LogIsTheRun(c, before);
      LogStep(c, After(c, before), step);
      if step.CountIn? || step.CountOut? || step.Signal? {
        IdsAreRegistered(c, before, step.p);
      }
    }
  }

  // ---------- look-ups ----------

  /** The receiver a carrier has looked up and not yet sent to: the last connection to have registered for the
      frame's place on the carrier's instance, if it has not left. */
  ghost function LookedUp(c: R.Config, run: seq<Step>, k: W.Carrier): Option<PeerId>
    requires ValidRun(c, run)
  {
    if run == [] then None
    else
      var before, step := run[..|run| - 1], run[|run| - 1];
      var s := After(c, before);
      if step == Send(k) then None
      else if step == Deliver(k) && HasFrame(s, k) then
        var f := s.w.queues[k][0];
        var last := LastToRegister(before, R.Ident(f.room, f.target, W.Where(s.r.ids, k)));
        if last.Some? && Unslot(last.value) in before then None else last
      else LookedUp(c, before, k)
  }

  lemma HandsStep(c: R.Config, s: State, step: Step, k: W.Carrier)
    requires Enabled(c, s, step)
    ensures var hands' := WireAfter(c, s, step).hands;
            (if k in hands' then Some(hands'[k]) else None) ==
            if step == Send(k) then None
            else if step == Deliver(k) then Receiver(s, k)
            else if k in s.w.hands then Some(s.w.hands[k]) else None
  {
  }

  lemma {:induction false} HandsAreLookedUp(c: R.Config, run: seq<Step>, k: W.Carrier)
    requires c.Valid() && ValidRun(c, run)
    ensures (if k in After(c, run).w.hands then Some(After(c, run).w.hands[k]) else None) == LookedUp(c, run, k)
  {
    if run != [] {
      var before, step := run[..|run| - 1], run[|run| - 1];
      var s := After(c, before);
      HandsAreLookedUp(c, before, k);
      HandsStep(c, s, step, k);
      if step == Deliver(k) {
        assert s.r.hubs.Keys == c.instances by { RunInv(c, before); }
        SlotIsLatestJoiner(c, before, R.Ident(s.w.queues[k][0].room, s.w.queues[k][0].target, W.Where(s.r.ids, k)));
      }
    }
  }

  // ---------- program order ----------

  /** A step of p's own goroutine. */
  predicate IsOwn(step: Step, p: PeerId) {
    !step.Take? && !step.Deliver? && !step.Send? && step.p == p
  }

  function Own(run: seq<Step>, p: PeerId): seq<Step> {
    if run == [] then []
    else
      var before, step := Own(run[..|run| - 1], p), run[|run| - 1];
      if IsOwn(step, p) then before + [step] else before
  }

  predicate Talks(step: Step, p: PeerId) {
    (step.Relay? || step.Reject?) && step.p == p
  }

  /** Join has returned, with or without peer-ready frames, and then the read loop has relayed or rejected. */
  predicate InLoop(own: seq<Step>, p: PeerId, id: R.Ident) {
    || own == [Register(p, id), CountIn(p)]
    || own == [Register(p, id), CountIn(p), Greet(p), Announce(p)]
    || (own != [] && InLoop(own[..|own| - 1], p, id) && Talks(own[|own| - 1], p))
  }

  predicate EndsWith(own: seq<Step>, last: Step) {
    own != [] && own[|own| - 1] == last
  }

  /** The order of ServeWS, readPump and its deferred function. */
  predicate InOrder(own: seq<Step>, p: PeerId, id: R.Ident, phase: R.Phase)
    decreases |own|
  {
    match phase
    case Registered => own == [Register(p, id)]
    case Greeting => own == [Register(p, id), CountIn(p)]
    case Announcing => own == [Register(p, id), CountIn(p), Greet(p)]
    case Live => InLoop(own, p, id)
    case Unslotted => EndsWith(own, Unslot(p)) && InLoop(own[..|own| - 1], p, id)
    case Signalling => EndsWith(own, CountOut(p, Done)) && InOrder(own[..|own| - 1], p, id, R.Unslotted)
    case Left =>
      || (EndsWith(own, Signal(p)) && InOrder(own[..|own| - 1], p, id, R.Signalling))
      || (own != [] && own[|own| - 1].CountOut? && own[|own| - 1].p == p && InOrder(own[..|own| - 1], p, id, R.Unslotted))
    case Closed => EndsWith(own, CloseSend(p)) && InOrder(own[..|own| - 1], p, id, R.Left)
    case Gone => EndsWith(own, SayBye(p)) && InOrder(own[..|own| - 1], p, id, R.Closed)
  }

  lemma OtherPhases(c: R.Config, s: State, step: Step, p: PeerId)
    requires Enabled(c, s, step) && !IsOwn(step, p) && p in s.r.phases
    ensures p in RosterAfter(c, s, step).phases && RosterAfter(c, s, step).phases[p] == s.r.phases[p]
  {
  }

  lemma OtherSteps(c: R.Config, s: State, step: Step, p: PeerId)
    requires Enabled(c, s, step) && s.r.phases.Keys == s.r.ids.Keys && !IsOwn(step, p)
    ensures p in RosterAfter(c, s, step).ids <==> p in s.r.ids
    ensures p in s.r.ids ==> p in RosterAfter(c, s, step).phases && RosterAfter(c, s, step).phases[p] == s.r.phases[p]
    ensures p in s.r.ids ==> RosterAfter(c, s, step).ids[p] == s.r.ids[p]
  {
    IdsStep(c, s, step);
    if p in s.r.ids {
      OtherPhases(c, s, step, p);
    }
  }

  lemma EntrySteps(c: R.Config, s: State, step: Step, p: PeerId, own: seq<Step>)
    requires Enabled(c, s, step) && s.r.phases.Keys == s.r.ids.Keys && IsOwn(step, p)
    requires if p in s.r.ids then InOrder(own, p, s.r.ids[p], s.r.phases[p]) else own == []
    requires step.Register? || step.CountIn? || step.Greet? || step.Announce?
    ensures var r' := RosterAfter(c, s, step); p in r'.ids && p in r'.phases && InOrder(own + [step], p, r'.ids[p], r'.phases[p])
  {
  }

  lemma LaterSteps(c: R.Config, s: State, step: Step, p: PeerId, own: seq<Step>)
    requires Enabled(c, s, step) && s.r.phases.Keys == s.r.ids.Keys && IsOwn(step, p)
    requires p in s.r.ids && InOrder(own, p, s.r.ids[p], s.r.phases[p])
    requires !step.Register? && !step.CountIn? && !step.Greet? && !step.Announce?
    ensures var r' := RosterAfter(c, s, step); p in r'.ids && p in r'.phases && InOrder(own + [step], p, r'.ids[p], r'.phases[p])
  {
    assert (own + [step])[..|own|] == own;
    match step {
      case Relay(_, _, _) =>
      case Reject(_) =>
      case Unslot(_) =>
      case CountOut(_, _) =>
      case Signal(_) =>
      case CloseSend(_) =>
      case SayBye(_) =>
    }
  }

  /** Every connection runs its program: it takes its slot, is counted in, greets itself and announces itself
      or neither, relays or rejects any messages, frees its slot, is counted out, signals an emptied room or
      not, closes its box and says bye; it may be anywhere in between, and has done nothing else. */
  lemma {:induction false} ConnectionsKeepOrder(c: R.Config, run: seq<Step>, p: PeerId)
    requires c.Valid() && ValidRun(c, run)
    ensures var r := After(c, run).r;
            if p in r.ids then p in r.phases && IdOf(run, p) == Some(r.ids[p]) && InOrder(Own(run, p), p, r.ids[p], r.phases[p])
            else Own(run, p) == []
  {
    IdsAreRegistered(c, run, p);
    if run != [] {
      var before, step := run[..|run| - 1], run[|run| - 1];
      var s := After(c, before);
      ConnectionsKeepOrder(c, before, p);
      assert s.r.phases.Keys == s.r.ids.Keys by { RunInv(c, before); }
      if !IsOwn(step, p) {
        OtherSteps(c, s, step, p);
      } else if step.Register? || step.CountIn? || step.Greet? || step.Announce? {
        EntrySteps(c, s, step, p, Own(before, p));
      } else {
        LaterSteps(c, s, step, p, Own(before, p));
      }
    }
  }
}
