/** The life-cycle model sees a room through presence only. Here that view is justified: every step of
    the relay is a step Admit, Enter, Exit or Callback of the life cycle, or none, and every run of the
    relay a run of the life cycle.
 */
module Refinement {
  import opened Rooms
  import R = Roster
  import Relay
  import L = Lifecycle
  import P = Presence

  function PcOf(phase: R.Phase): L.PeerPc {
    if phase.Registered? then L.Admitted
    else if phase.Present() then L.Inside
    else if phase.Signalling? then L.Calling
    else L.Outside
  }

  function View(r: R.Roster): L.Peers {
    map p | p in r.ids && p in r.phases :: L.Peer(r.ids[p].room, r.ids[p].role, PcOf(r.phases[p]))
  }

  /** The step of the life cycle that a step of the relay amounts to; `expires` is the deadline of the
      join token a newcomer presents. */
  function StepOf(step: Relay.Step, expires: Time): Option<L.Step> {
    match step
    case Register(p, id) => Some(L.Admit(p, L.Grant(id.room, id.role, expires)))
    case CountIn(p) => Some(L.Enter(p))
    case CountOut(p, out) => Some(L.Exit(p, out))
    case Signal(p) => Some(L.Callback(p, false))
    case _ => None
  }

  lemma AloneIsLastOut(r: R.Roster, p: PeerId)
    requires r.phases.Keys == r.ids.Keys && p in r.ids
    ensures L.Alone(View(r), p) <==> R.LastOut(r, p)
  {
    forall q | q in r.ids ensures View(r)[q].pc.Inside? <==> r.phases[q].Present() {}
  }

  lemma RegisterView(r: R.Roster, p: PeerId, id: R.Ident)
    requires r.phases.Keys == r.ids.Keys && p !in r.ids && id.inst in r.hubs
    ensures View(R.Enroll(r, p, id)) == View(r)[p := L.Peer(id.room, id.role, L.Admitted)]
  {
  }

  lemma CountInView(r: R.Roster, p: PeerId, now: nat)
    requires r.phases.Keys == r.ids.Keys && p in r.ids && r.phases[p].Registered?
    ensures View(r)[p].pc.Admitted? && View(R.CountIn(r, p, now)) == View(r)[p := View(r)[p].(pc := L.Inside)]
  {
  }

  lemma CountOutView(c: R.Config, r: R.Roster, p: PeerId, out: Outcome)
    requires r.phases.Keys == r.ids.Keys && p in r.ids && r.phases[p].Unslotted?
    ensures View(r)[p].pc.Inside?
    ensures View(R.CountOut(c, r, p, out)) ==
            View(r)[p := View(r)[p].(pc := if R.CountOut(c, r, p, out).phases[p].Signalling? then L.Calling else L.Outside)]
  {
  }

  lemma GotoView(r: R.Roster, p: PeerId, phase: R.Phase)
    requires r.phases.Keys == r.ids.Keys && p in r.ids
    ensures View(R.Goto(r, p, phase)) == View(r)[p := View(r)[p].(pc := PcOf(phase))]
    ensures PcOf(phase) == PcOf(r.phases[p]) ==> View(R.Goto(r, p, phase)) == View(r)
  {
  }

  lemma UnslotView(r: R.Roster, p: PeerId)
    requires r.phases.Keys == r.ids.Keys && p in r.ids && r.phases[p].Live? && r.ids[p].inst in r.hubs
    ensures View(R.FreeSlot(r, p)) == View(r)
  {
    assert PcOf(r.phases[p]) == PcOf(R.Unslotted);
  }

  /** The rooms of which a Leave was lost. */
  ghost predicate SameLost(r: R.Roster, lost: set<RoomId>)
    requires |r.log| == |r.outs|
  {
    forall room :: room in lost <==> !P.NoneLost(r.log, r.outs, room)
  }

  /** A life cycle sees a roster: the same peers, and the same rooms out of count. */
  ghost predicate Sees(l: L.State, r: R.Roster) {
    && |r.log| == |r.outs| && SameLost(r, l.lost)
    && l.peers == View(r)
  }

  predicate CanMove(peers: L.Peers, step: Relay.Step) {
    match step
    case Register(p, _) => p !in peers
    case CountIn(p) => p in peers && peers[p].pc.Admitted?
    case CountOut(p, _) => p in peers && peers[p].pc.Inside?
    case Signal(p) => p in peers && peers[p].pc.Calling?
    case _ => true
  }

  /** What a step of the relay does to the peers as the life cycle sees them. */
  function Moved(peers: L.Peers, lost: set<RoomId>, step: Relay.Step): L.Peers
    requires CanMove(peers, step)
  {
    match step
    case Register(p, id) => peers[p := L.Peer(id.room, id.role, L.Admitted)]
    case CountIn(p) => peers[p := peers[p].(pc := L.Inside)]
    case CountOut(p, out) =>
      peers[p := peers[p].(pc := if L.Alone(peers, p) && out.Done? && peers[p].room !in lost then L.Calling else L.Outside)]
    case Signal(p) => peers[p := peers[p].(pc := L.Outside)]
    case _ => peers
  }

  /** A presence Leave calls back exactly when the life cycle says it reports the room empty. */
  predicate Hears(c: R.Config, r: R.Roster, lost: set<RoomId>, step: Relay.Step)
    requires r.phases.Keys == r.ids.Keys
  {
    step.CountOut? && step.p in r.ids ==>
      (R.CountOut(c, r, step.p, step.out).phases[step.p].Signalling? <==>
         L.Alone(View(r), step.p) && step.out.Done? && r.ids[step.p].room !in lost)
  }

  lemma EntryMoves(c: R.Config, s: Relay.State, lost: set<RoomId>, step: Relay.Step)
    requires s.r.phases.Keys == s.r.ids.Keys && Relay.Enabled(c, s, step) && (step.Register? || step.CountIn?)
    ensures CanMove(View(s.r), step) && View(Relay.RosterAfter(c, s, step)) == Moved(View(s.r), lost, step)
  {
    match step {
      case Register(p, id) => RegisterView(s.r, p, id);
      case CountIn(p) => CountInView(s.r, p, s.now);
    }
  }

  lemma ExitMoves(c: R.Config, s: Relay.State, lost: set<RoomId>, step: Relay.Step)
    requires s.r.phases.Keys == s.r.ids.Keys && Relay.Enabled(c, s, step) && (step.CountOut? || step.Signal?) && Hears(c, s.r, lost, step)
    ensures CanMove(View(s.r), step) && View(Relay.RosterAfter(c, s, step)) == Moved(View(s.r), lost, step)
  {
    match step {
      case CountOut(p, out) => CountOutView(c, s.r, p, out);
      case Signal(p) => GotoView(s.r, p, R.Left);
    }
  }

  lemma OtherStepsMoveNobody(c: R.Config, s: Relay.State, step: Relay.Step)
    requires s.r.phases.Keys == s.r.ids.Keys && Relay.Enabled(c, s, step)
    requires !step.Register? && !step.CountIn? && !step.CountOut? && !step.Signal?
    ensures View(Relay.RosterAfter(c, s, step)) == View(s.r)
  {
    match step {
      case Greet(p) => GotoView(s.r, p, R.Announcing);
      case Announce(p) => GotoView(s.r, p, R.Live);
      case Unslot(p) => UnslotView(s.r, p);
      case CloseSend(p) => GotoView(s.r, p, R.Closed);
      case SayBye(p) => GotoView(s.r, p, R.Gone);
      case _ =>
    }
  }

  lemma RelayMoves(c: R.Config, s: Relay.State, lost: set<RoomId>, step: Relay.Step)
    requires s.r.phases.Keys == s.r.ids.Keys && Relay.Enabled(c, s, step) && Hears(c, s.r, lost, step)
    ensures CanMove(View(s.r), step) && View(Relay.RosterAfter(c, s, step)) == Moved(View(s.r), lost, step)
  {
    if step.Register? || step.CountIn? {
      EntryMoves(c, s, lost, step);
    } else if step.CountOut? || step.Signal? {
      ExitMoves(c, s, lost, step);
    } else {
      OtherStepsMoveNobody(c, s, step);
    }
  }

  lemma LeavesAreHeard(c: R.Config, s: Relay.State, lost: set<RoomId>, step: Relay.Step)
    requires s.r.phases.Keys == s.r.ids.Keys && R.LogInv(c, s.r) && Relay.Enabled(c, s, step) && SameLost(s.r, lost)
    ensures Hears(c, s.r, lost, step)
  {
    if step.CountOut? {
      R.CountOutSignalsEmptied(c, s.r, step.p, step.out);
      AloneIsLastOut(s.r, step.p);
    }
  }

  function LostMore(r: R.Roster, lost: set<RoomId>, step: Relay.Step): set<RoomId> {
    if step.CountOut? && step.out == Failed(false) && step.p in r.ids then lost + {r.ids[step.p].room} else lost
  }

  lemma LostStep(c: R.Config, s: Relay.State, lost: set<RoomId>, step: Relay.Step)
    requires |s.r.log| == |s.r.outs| && SameLost(s.r, lost) && Relay.Enabled(c, s, step)
    ensures var r' := Relay.RosterAfter(c, s, step); |r'.log| == |r'.outs| && SameLost(r', LostMore(s.r, lost, step))
  {
    if step.CountIn? {
      var e := P.Join(step.p, s.r.ids[step.p].room, s.r.ids[step.p].role);
      forall room ensures P.NoneLost(s.r.log + [e], s.r.outs + [Done], room) <==> P.NoneLost(s.r.log, s.r.outs, room) {
        P.NoneLostMore(s.r.log, s.r.outs, e, Done, room);
      }
    } else if step.CountOut? {
      CountOutLost(s.r, lost, step.p, step.out);
    } else {
      OthersLogNothing(c, s, step);
    }
  }

  lemma CountOutLost(r: R.Roster, lost: set<RoomId>, p: PeerId, out: Outcome)
    requires |r.log| == |r.outs| && SameLost(r, lost) && p in r.ids
    ensures forall room :: room in (if out == Failed(false) then lost + {r.ids[p].room} else lost) <==>
              !P.NoneLost(r.log + [P.Leave(p, r.ids[p].room, r.ids[p].role)], r.outs + [out], room)
  {
    forall room
      ensures room in (if out == Failed(false) then lost + {r.ids[p].room} else lost) <==>
              !P.NoneLost(r.log + [P.Leave(p, r.ids[p].room, r.ids[p].role)], r.outs + [out], room)
    {
      P.NoneLostMore(r.log, r.outs, P.Leave(p, r.ids[p].room, r.ids[p].role), out, room);
    }
  }

  lemma OthersLogNothing(c: R.Config, s: Relay.State, step: Relay.Step)
    requires Relay.Enabled(c, s, step) && !step.CountIn? && !step.CountOut?
    ensures Relay.RosterAfter(c, s, step).log == s.r.log && Relay.RosterAfter(c, s, step).outs == s.r.outs
  {
  }

  lemma LifecycleMoves(d: L.Config, l: L.State, step: Relay.Step, expires: Time)
    requires CanMove(l.peers, step) && StepOf(step, expires).Some?
    requires step.Register? ==> Valid(l, step.id, expires)
    ensures var move := StepOf(step, expires).value;
            && L.Enabled(d, l, move)
            && L.Apply(d, l, move).peers == Moved(l.peers, l.lost, step)
            && L.Apply(d, l, move).grants == l.grants && L.Apply(d, l, move).now == l.now
  {
  }

  lemma LifecycleLoses(d: L.Config, l: L.State, r: R.Roster, step: Relay.Step, expires: Time)
    requires l.peers == View(r) && StepOf(step, expires).Some? && L.Enabled(d, l, StepOf(step, expires).value)
    ensures L.Apply(d, l, StepOf(step, expires).value).lost == LostMore(r, l.lost, step)
  {
  }

  /** In any reachable state of the relay: whatever step it takes, Leaves failing in any way, a life cycle
      that sees its roster, and has granted the newcomer its token, can take the matching step and sees
      the roster again. */
  lemma RelayStepsAreLifecycleSteps(c: R.Config, run: seq<Relay.Step>, step: Relay.Step, d: L.Config, l: L.State, expires: Time)
    requires c.Valid() && Relay.ValidRun(c, run) && Relay.Enabled(c, Relay.After(c, run), step)
    requires Sees(l, Relay.After(c, run).r)
    requires step.Register? ==> Valid(l, step.id, expires)
    ensures var r' := Relay.Apply(c, Relay.After(c, run), step).r;
            match StepOf(step, expires)
            case Some(move) =>
              && L.Enabled(d, l, move) && Sees(L.Apply(d, l, move), r')
              && L.Apply(d, l, move).grants == l.grants && L.Apply(d, l, move).now == l.now
            case None => Sees(l, r')
  {
    var s := Relay.After(c, run);
    assert s.r.phases.Keys == s.r.ids.Keys && Hears(c, s.r, l.lost, step) by {
      Relay.RunInv(c, run);
      LeavesAreHeard(c, s, l.lost, step);
    }
    RelayMoves(c, s, l.lost, step);
    LostStep(c, s, l.lost, step);
    if StepOf(step, expires).Some? {
      LifecycleMoves(d, l, step, expires);
      LifecycleLoses(d, l, s.r, step, expires);
    }
  }

  // ---------- whole runs ----------

  /** Every newcomer of the run has a join token that is still valid. */
  ghost predicate Granted(run: seq<Relay.Step>, l: L.State) {
    forall i | 0 <= i < |run| && run[i].Register? :: HasToken(l, run[i].id)
  }

  ghost predicate HasToken(l: L.State, id: R.Ident) {
    exists expires :: Valid(l, id, expires)
  }

  predicate Valid(l: L.State, id: R.Ident, expires: Time) {
    L.Grant(id.room, id.role, expires) in l.grants && l.now < expires
  }

  lemma GrantedBefore(run: seq<Relay.Step>, l: L.State)
    requires run != [] && Granted(run, l)
    ensures Granted(run[..|run| - 1], l) && (run[|run| - 1].Register? ==> HasToken(l, run[|run| - 1].id))
  {
    var before := run[..|run| - 1];
    forall i | 0 <= i < |before| ensures before[i] == run[i] {}
  }

  /** A life-cycle run that follows a relay run from where it started: it sees the roster, and the tokens
      granted at the start are as good as then. */
  ghost predicate Follows(d: L.Config, base: seq<L.Step>, all: seq<L.Step>, r: R.Roster) {
    && L.ValidRun(d, base) && L.ValidRun(d, all) && Sees(L.After(d, all), r)
    && L.After(d, all).grants == L.After(d, base).grants && L.After(d, all).now == L.After(d, base).now
  }

  lemma StepFollows(c: R.Config, before: seq<Relay.Step>, step: Relay.Step, d: L.Config, base: seq<L.Step>, all: seq<L.Step>)
    returns (all': seq<L.Step>)
    requires c.Valid() && Relay.ValidRun(c, before) && Relay.Enabled(c, Relay.After(c, before), step)
    requires Follows(d, base, all, Relay.After(c, before).r) && (step.Register? ==> HasToken(L.After(d, base), step.id))
    ensures all <= all' && Follows(d, base, all', Relay.Apply(c, Relay.After(c, before), step).r)
  {
    var expires: Time := 0.0;
    if step.Register? {
      expires :| Valid(L.After(d, base), step.id, expires);
    }
    RelayStepsAreLifecycleSteps(c, before, step, d, L.After(d, all), expires);
    match StepOf(step, expires) {
      case None => all' := all;
      case Some(move) =>
        L.Extend(d, all, move);
        all' := all + [move];
    }
  }

  /** Every relay run, Leaves failing in any way, is a run of the life cycle as far as the rooms go: any
      life-cycle run that has granted the newcomers their tokens and has admitted nobody yet can be
      continued to a state with the same peers and the same rooms out of count. */
  lemma {:induction false} RelayRunsAreLifecycleRuns(c: R.Config, run: seq<Relay.Step>, d: L.Config, base: seq<L.Step>)
    returns (all: seq<L.Step>)
    requires c.Valid() && Relay.ValidRun(c, run)
    requires L.ValidRun(d, base) && L.After(d, base).peers == map[] && L.After(d, base).lost == {} && Granted(run, L.After(d, base))
    ensures base <= all && Follows(d, base, all, Relay.After(c, run).r)
  {
    if run == [] {
      all := base;
    } else {
      var before, step := run[..|run| - 1], run[|run| - 1];
      GrantedBefore(run, L.After(d, base));
      all := RelayRunsAreLifecycleRuns(c, before, d, base);
      all := StepFollows(c, before, step, d, base, all);
    }
  }
}
