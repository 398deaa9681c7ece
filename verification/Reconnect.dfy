/** A run of the relay in which an old connection's bye comes after its successor has joined. */
module Reconnect {
  import opened Rooms
  import opened Mailbox
  import opened Hub
  import opened Relay
  import P = Presence
  import R = Roster
  import W = Wire

  const ONE := R.Config(R.InProcess, {0})
  const AGENT := R.Ident(0, Agent, 0)
  const PHONE := R.Ident(0, Phone, 0)

  lemma Extend(c: R.Config, run: seq<Step>, step: Step)
    requires ValidRun(c, run) && Enabled(c, After(c, run), step)
    ensures ValidRun(c, run + [step]) && After(c, run + [step]) == Apply(c, After(c, run), step)
  {
    assert (run + [step])[..|run|] == run;
  }

  const COUNTED: P.Counts := map[0 := map[Agent := 1]]

  lemma Counting()
    ensures P.Add(map[], 0, Agent, 1) == COUNTED && Phone !in P.Others(COUNTED, 0, Agent)
    ensures P.LocalLeave(COUNTED, 0, Agent) == map[] && P.Vacant(map[], 0)
  {
  }

  /** Connection 1, an agent, alone in the hub; nothing is in transit. */
  predicate First(s: State, phase: R.Phase, counts: P.Counts) {
    && InPhase(s, 1, phase) && s.r.ids == map[1 := AGENT] && s.r.counts == counts
    && 1 in s.w.sent && s.w.sent[1] == [] && s.w.hands == map[] && 0 in s.r.hubs
  }

  lemma Registers()
    ensures Enabled(ONE, Init(ONE), Register(1, AGENT))
    ensures First(Apply(ONE, Init(ONE), Register(1, AGENT)), R.Registered, map[])
  {
  }

  lemma CountsIn(s: State)
    requires First(s, R.Registered, map[])
    ensures First(Apply(ONE, s, CountIn(1)), R.Live, COUNTED)
  {
    Counting();
  }

  lemma Unslots(s: State)
    requires First(s, R.Live, COUNTED)
    ensures First(Apply(ONE, s, Unslot(1)), R.Unslotted, COUNTED)
  {
  }

  lemma CountsOut(s: State)
    requires First(s, R.Unslotted, COUNTED)
    ensures First(Apply(ONE, s, CountOut(1, Done)), R.Signalling, map[])
  {
    Counting();
  }

  lemma Signals(s: State)
    requires First(s, R.Signalling, map[])
    ensures First(Apply(ONE, s, Signal(1)), R.Left, map[])
  {
  }

  lemma Closes(s: State)
    requires First(s, R.Left, map[])
    ensures First(Apply(ONE, s, CloseSend(1)), R.Closed, map[])
  {
  }

  lemma Arrive() returns (run: seq<Step>)
    ensures ValidRun(ONE, run) && First(After(ONE, run), R.Live, COUNTED)
  {
    Registers();
    Extend(ONE, [], Register(1, AGENT));
    run := [] + [Register(1, AGENT)];
    CountsIn(After(ONE, run));
    Extend(ONE, run, CountIn(1));
    run := run + [CountIn(1)];
  }

  lemma Depart(before: seq<Step>) returns (run: seq<Step>)
    requires ValidRun(ONE, before) && First(After(ONE, before), R.Live, COUNTED)
    ensures ValidRun(ONE, run) && First(After(ONE, run), R.Closed, map[])
  {
    Unslots(After(ONE, before));
    Extend(ONE, before, Unslot(1));
    run := before + [Unslot(1)];
    CountsOut(After(ONE, run));
    Extend(ONE, run, CountOut(1, Done));
    run := run + [CountOut(1, Done)];
    Signals(After(ONE, run));
    Extend(ONE, run, Signal(1));
    run := run + [Signal(1)];
    Closes(After(ONE, run));
    Extend(ONE, run, CloseSend(1));
    run := run + [CloseSend(1)];
  }

  /** Connection 1 has gone except for its bye, and connection 2 is the agent now. */
  ghost predicate Second(s: State, phase: R.Phase, counts: P.Counts) {
    && InPhase(s, 1, R.Closed) && InPhase(s, 2, phase) && s.r.ids == map[1 := AGENT, 2 := AGENT] && R.Holds(s.r, 2)
    && s.r.counts == counts && s.w.sent[1] == [] && s.w.hands == map[] && 0 in s.r.hubs
  }

  lemma RegistersAgain(s: State)
    requires First(s, R.Closed, map[])
    ensures Second(Apply(ONE, s, Register(2, AGENT)), R.Registered, map[])
  {
    PutAt(s.r.hubs[0], 0, Agent, 2);
  }

  lemma CountsInAgain(s: State)
    requires Second(s, R.Registered, map[])
    ensures Second(Apply(ONE, s, CountIn(2)), R.Live, COUNTED)
  {
    Counting();
  }

  lemma Return(before: seq<Step>) returns (run: seq<Step>)
    requires ValidRun(ONE, before) && First(After(ONE, before), R.Closed, map[])
    ensures ValidRun(ONE, run) && Second(After(ONE, run), R.Live, COUNTED)
  {
    RegistersAgain(After(ONE, before));
    Extend(ONE, before, Register(2, AGENT));
    run := before + [Register(2, AGENT)];
    CountsInAgain(After(ONE, run));
    Extend(ONE, run, CountIn(2));
    run := run + [CountIn(2)];
  }

  /** The new agent is there, and `bye` is what the phone's writer has taken, waits in its box, or is
      still carried by connection 1. */
  ghost predicate Waiting(s: State, taken: seq<W.Frame>, queue: seq<W.Frame>, carried: seq<W.Frame>) {
    && InPhase(s, 2, R.Live) && R.Holds(s.r, 2)
    && 1 in s.r.ids && s.r.ids[1] == AGENT && 2 in s.r.ids && s.r.ids[2] == AGENT && 3 in s.r.ids && s.r.ids[3] == PHONE
    && At(s.r.hubs[0], 0, Phone) == Some(3)
    && 3 in s.w.boxes && s.w.boxes[3] == Box(taken, queue, false)
    && W.ByPeer(1) in s.w.queues && s.w.queues[W.ByPeer(1)] == carried
  }

  lemma PhoneRegisters(s: State)
    requires Second(s, R.Live, COUNTED)
    ensures var s' := Apply(ONE, s, Register(3, PHONE));
            Waiting(s', [], [], []) && InPhase(s', 1, R.Closed) && s'.w.sent[1] == [] && s'.w.hands == map[]
  {
    PutAt(s.r.hubs[0], 0, Phone, 3);
  }

  lemma Meet(before: seq<Step>) returns (run: seq<Step>)
    requires ValidRun(ONE, before) && Second(After(ONE, before), R.Live, COUNTED)
    ensures ValidRun(ONE, run) && Waiting(After(ONE, run), [], [], []) && InPhase(After(ONE, run), 1, R.Closed)
    ensures After(ONE, run).w.sent[1] == [] && After(ONE, run).w.hands == map[]
  {
    PhoneRegisters(After(ONE, before));
    Extend(ONE, before, Register(3, PHONE));
    run := before + [Register(3, PHONE)];
  }

  lemma SaysBye(s: State) returns (bye: W.Frame)
    requires Waiting(s, [], [], []) && InPhase(s, 1, R.Closed) && s.w.sent[1] == [] && s.w.hands == map[]
    ensures bye.Published? && bye.src == 1 && bye.env == Bye(Agent) && bye.room == 0 && bye.target == Phone
    ensures Waiting(Apply(ONE, s, SayBye(1)), [], [], [bye]) && Apply(ONE, s, SayBye(1)).w.hands == map[]
  {
    bye := W.FrameOf(s.r.ids, s.w.sent, 1, s.now, Bye(Agent));
  }

  lemma Delivers(s: State, bye: W.Frame)
    requires Waiting(s, [], [], [bye]) && s.w.hands == map[] && bye.Published? && bye.room == 0 && bye.target == Phone
    ensures Enabled(ONE, s, Deliver(W.ByPeer(1)))
    ensures var s' := Apply(ONE, s, Deliver(W.ByPeer(1))); Waiting(s', [], [], [bye]) && s'.w.hands == map[W.ByPeer(1) := 3]
  {
  }

  lemma Sends(s: State, bye: W.Frame)
    requires Waiting(s, [], [], [bye]) && s.w.hands == map[W.ByPeer(1) := 3] && bye.Published?
    ensures Waiting(Apply(ONE, s, Send(W.ByPeer(1))), [], [bye], [])
  {
  }

  lemma Takes(s: State, bye: W.Frame)
    requires Waiting(s, [], [bye], [])
    ensures Waiting(Apply(ONE, s, Take(3)), [bye], [], [])
  {
  }

  lemma Farewell(before: seq<Step>) returns (run: seq<Step>, bye: W.Frame)
    requires ValidRun(ONE, before) && Waiting(After(ONE, before), [], [], []) && InPhase(After(ONE, before), 1, R.Closed)
    requires After(ONE, before).w.sent[1] == [] && After(ONE, before).w.hands == map[]
    ensures ValidRun(ONE, run) && bye.Published? && bye.src == 1 && bye.env == Bye(Agent)
    ensures Waiting(After(ONE, run), [bye], [], [])
  {
    var k := W.ByPeer(1);
    bye := SaysBye(After(ONE, before));
    Extend(ONE, before, SayBye(1));
    run := before + [SayBye(1)];
    Delivers(After(ONE, run), bye);
    Extend(ONE, run, Deliver(k));
    run := run + [Deliver(k)];
    Sends(After(ONE, run), bye);
    Extend(ONE, run, Send(k));
    run := run + [Send(k)];
    Takes(After(ONE, run), bye);
    Extend(ONE, run, Take(3));
    run := run + [Take(3)];
  }

  /** A bye does not mean that the role is gone: the phone reads the bye of an old agent while the new
      agent holds the slot and is in its read loop. */
  lemma ByeCanFollowReconnect()
    ensures exists run, f: W.Frame :: ValidRun(ONE, run) && 3 in After(ONE, run).w.boxes && After(ONE, run).w.boxes[3].taken == [f]
                        && f.Published? && f.src == 1 && f.env == Bye(Agent)
                        && InPhase(After(ONE, run), 2, R.Live) && R.Holds(After(ONE, run).r, 2) && After(ONE, run).r.ids[2] == AGENT
  {
    var run := Arrive();
    run := Depart(run);
    run := Return(run);
    run := Meet(run);
    var bye;
    run, bye := Farewell(run);
  }
}
