/** What the life cycle's records say of its runs: who was given a join token, who came with one, and what
    has happened to a room since its session was activated.

    The functions below go through the steps of a run; the lemmas say that the state's records agree with
    them after every run.
 */
module Ledger {
  import opened Rooms
  import opened Session
  import opened Lifecycle
  import Auth

  // ---------- join tokens ----------

  /** The n-th step signs this join token: the agent's at the end of a Mint, the phone's at the end of a
      Redeem, each for the session of its call, and good for the lifetime from then on, in whole seconds. */
  ghost predicate SignedAt(c: Config, run: seq<Step>, n: nat, g: Grant) {
    && n < |run| && ValidRun(c, run[..n])
    && var s := After(c, run[..n]);
       g.expires == Seconds(s.now + c.signalingTtl) &&
       match run[n]
       case MintGrant(t) => t in s.mints && s.mints[t] == Stored(g.room) && g.role == Agent
       case RedeemGrant(t) => t in s.redeems && s.redeems[t] == Updated(g.room) && g.role == Phone
       case _ => false
  }

  lemma OthersSignNothing(c: Config, s: State, step: Step)
    requires Enabled(c, s, step) && !step.MintGrant? && !step.RedeemGrant?
    ensures Apply(c, s, step).grants == s.grants
  {
    GrantsStay(c, s, step);
  }

  lemma SignsOne(c: Config, run: seq<Step>, g: Grant)
    requires run != [] && ValidRun(c, run)
    ensures g in After(c, run).grants <==> g in After(c, run[..|run| - 1]).grants || SignedAt(c, run, |run| - 1, g)
  {
    var s, step := After(c, run[..|run| - 1]), run[|run| - 1];
    if !step.MintGrant? && !step.RedeemGrant? {
      OthersSignNothing(c, s, step);
    }
  }

  lemma SignedEarlier(c: Config, run: seq<Step>, n: nat, g: Grant)
    requires run != [] && n < |run| - 1
    ensures SignedAt(c, run, n, g) <==> SignedAt(c, run[..|run| - 1], n, g)
  {
    assert run[..|run| - 1][..n] == run[..n] && run[..|run| - 1][n] == run[n];
  }

  /** After any run the join tokens there are, are exactly those its steps have signed. */
  lemma {:induction false} GrantsAreSigned(c: Config, run: seq<Step>, g: Grant)
    requires ValidRun(c, run)
    ensures g in After(c, run).grants <==> exists n: nat :: SignedAt(c, run, n, g)
  {
    if run != [] {
      var last := |run| - 1;
      GrantsAreSigned(c, run[..last], g);
      SignsOne(c, run, g);
      forall n: nat | n < last
        ensures SignedAt(c, run, n, g) <==> SignedAt(c, run[..last], n, g)
      {
        SignedEarlier(c, run, n, g);
      }
      if g in After(c, run[..last]).grants {
        var n: nat :| SignedAt(c, run[..last], n, g);
        assert SignedAt(c, run, n, g);
      }
    }
  }

  ghost predicate HasJoined(redeems: Redeems, sid: SessionId) {
    exists t | t in redeems :: redeems[t] == Joined(sid)
  }

  ghost predicate HasMinted(mints: Mints, sid: SessionId) {
    exists t | t in mints :: mints[t] == Granted(sid)
  }

  ghost predicate GrantedTo(grants: set<Grant>, sid: SessionId, role: Role) {
    exists g | g in grants :: g.room == sid && g.role == role
  }

  lemma JoinedStays(c: Config, s: State, step: Step, sid: SessionId)
    requires Enabled(c, s, step) && !step.RedeemGrant?
    ensures HasJoined(Apply(c, s, step).redeems, sid) <==> HasJoined(s.redeems, sid)
  {
    OneRedeemMoves(c, s, step);
    var redeems' := Apply(c, s, step).redeems;
    if MovesRedeem(step) {
      MoverNotJoined(c, s, step);
    }
    if HasJoined(s.redeems, sid) {
      var t :| t in s.redeems && s.redeems[t] == Joined(sid);
      assert t in redeems' && redeems'[t] == Joined(sid);
    }
    if HasJoined(redeems', sid) {
      var t :| t in redeems' && redeems'[t] == Joined(sid);
      assert t in s.redeems && s.redeems[t] == Joined(sid);
    }
  }

  lemma MoverNotJoined(c: Config, s: State, step: Step)
    requires Enabled(c, s, step) && MovesRedeem(step) && !step.RedeemGrant?
    ensures !Apply(c, s, step).redeems[step.t].Joined? && (step.t in s.redeems ==> !s.redeems[step.t].Joined?)
  {
    match step {
      case RedeemGet(_, _, _) =>
      case RedeemCount(_) =>
      case RedeemDecide(_, _) =>
      case RedeemUpdate(_) =>
    }
  }

  lemma MintedStays(c: Config, s: State, step: Step, sid: SessionId)
    requires Enabled(c, s, step) && !step.MintGrant?
    ensures HasMinted(Apply(c, s, step).mints, sid) <==> HasMinted(s.mints, sid)
  {
    var mints' := Apply(c, s, step).mints;
    if step.MintInsert? || step.MintStore? || step.MintRollback? {
      MinterNotGranted(c, s, step);
    } else {
      OtherMints(c, s, step);
    }
    if HasMinted(s.mints, sid) {
      var t :| t in s.mints && s.mints[t] == Granted(sid);
      assert t in mints' && mints'[t] == Granted(sid);
    }
    if HasMinted(mints', sid) {
      var t :| t in mints' && mints'[t] == Granted(sid);
      assert t in s.mints && s.mints[t] == Granted(sid);
    }
  }

  lemma MinterNotGranted(c: Config, s: State, step: Step)
    requires Enabled(c, s, step) && (step.MintInsert? || step.MintStore? || step.MintRollback?)
    ensures var mints' := Apply(c, s, step).mints;
            && step.t in mints' && mints' == s.mints[step.t := mints'[step.t]]
            && !mints'[step.t].Granted? && (step.t in s.mints ==> !s.mints[step.t].Granted?)
  {
    match step {
      case MintInsert(_, _, _) =>
      case MintStore(_) =>
      case MintRollback(_, _) =>
    }
  }

  lemma GrantStepJoins(c: Config, s: State, t: CallId, sid: SessionId)
    requires Enabled(c, s, RedeemGrant(t))
    ensures var s' := Apply(c, s, RedeemGrant(t)); var own := s.redeems[t].session == sid;
            && (HasJoined(s'.redeems, sid) <==> HasJoined(s.redeems, sid) || own)
            && (GrantedTo(s'.grants, sid, Phone) <==> GrantedTo(s.grants, sid, Phone) || own)
            && (GrantedTo(s'.grants, sid, Agent) <==> GrantedTo(s.grants, sid, Agent))
  {
    var s' := Apply(c, s, RedeemGrant(t));
    assert s'.redeems[t] == Joined(s.redeems[t].session);
    if HasJoined(s.redeems, sid) {
      var u :| u in s.redeems && s.redeems[u] == Joined(sid);
      assert u in s'.redeems && s'.redeems[u] == Joined(sid);
    }
    assert Grant(s.redeems[t].session, Phone, Seconds(s.now + c.signalingTtl)) in s'.grants;
  }

  lemma GrantStepMints(c: Config, s: State, t: CallId, sid: SessionId)
    requires Enabled(c, s, MintGrant(t))
    ensures var s' := Apply(c, s, MintGrant(t)); var own := s.mints[t].session == sid;
            && (HasMinted(s'.mints, sid) <==> HasMinted(s.mints, sid) || own)
            && (GrantedTo(s'.grants, sid, Agent) <==> GrantedTo(s.grants, sid, Agent) || own)
            && (GrantedTo(s'.grants, sid, Phone) <==> GrantedTo(s.grants, sid, Phone))
  {
    var s' := Apply(c, s, MintGrant(t));
    assert s'.mints[t] == Granted(s.mints[t].session);
    if HasMinted(s.mints, sid) {
      var u :| u in s.mints && s.mints[u] == Granted(sid);
      assert u in s'.mints && s'.mints[u] == Granted(sid);
    }
    assert Grant(s.mints[t].session, Agent, Seconds(s.now + c.signalingTtl)) in s'.grants;
  }

  /** A phone's join token for a session exists exactly if some Redeem has returned a JoinInfo for it, and an
      agent's exactly if some Mint has returned its token. */
  lemma {:induction false} TokensComeWithAnswers(c: Config, run: seq<Step>, sid: SessionId)
    requires ValidRun(c, run)
    ensures GrantedTo(After(c, run).grants, sid, Phone) <==> HasJoined(After(c, run).redeems, sid)
    ensures GrantedTo(After(c, run).grants, sid, Agent) <==> HasMinted(After(c, run).mints, sid)
  {
    if run != [] {
      var s, step := After(c, run[..|run| - 1]), run[|run| - 1];
      TokensComeWithAnswers(c, run[..|run| - 1], sid);
      if step.RedeemGrant? {
        GrantStepJoins(c, s, step.t, sid);
        MintedStays(c, s, step, sid);
      } else if step.MintGrant? {
        GrantStepMints(c, s, step.t, sid);
        JoinedStays(c, s, step, sid);
      } else {
        OthersSignNothing(c, s, step);
        JoinedStays(c, s, step, sid);
        MintedStays(c, s, step, sid);
      }
    }
  }

  /** Admission is the endpoint's check of the signed token: a peer that presents the token of a grant is
      admitted, to the grant's room and role, if and only if the check of that room and role succeeds. */
  lemma AdmissionIsAuthorized(c: Config, i: Auth.Issuer, s: State, p: PeerId, room: RoomId, role: Role, at: Time)
    requires i.signalingTtl == c.signalingTtl && p !in s.peers
    requires Grant(room, role, Seconds(at + c.signalingTtl)) in s.grants
    ensures var g, token := Grant(room, role, Seconds(at + c.signalingTtl)), Auth.IssueSignaling(i, room, role, at);
            && (Enabled(c, s, Admit(p, g)) <==> Auth.Authorizes(i, token, room, role, s.now))
            && (Enabled(c, s, Admit(p, g)) ==> Apply(c, s, Admit(p, g)).peers == s.peers[p := Peer(room, role, Admitted)])
  {
  }

  /** Every peer was admitted by a step of the run, with a token for its room and role that was there and had
      not expired. */
  ghost predicate AdmittedAt(c: Config, run: seq<Step>, n: nat, p: PeerId, room: RoomId, role: Role) {
    && n < |run| && ValidRun(c, run[..n]) && run[n].Admit? && run[n].p == p
    && run[n].grant.room == room && run[n].grant.role == role
    && run[n].grant in After(c, run[..n]).grants && After(c, run[..n]).now < run[n].grant.expires
  }

  lemma {:induction false} PeersWereAdmitted(c: Config, run: seq<Step>, p: PeerId) returns (n: nat)
    requires ValidRun(c, run) && p in After(c, run).peers
    ensures AdmittedAt(c, run, n, p, After(c, run).peers[p].room, After(c, run).peers[p].role)
  {
    var last := |run| - 1;
    var before, step := run[..last], run[last];
    OnePeerMoves(c, After(c, before), step);
    if step.Admit? && step.p == p {
      n := last;
    } else {
      n := PeersWereAdmitted(c, before, p);
      assert before[..n] == run[..n] && before[n] == run[n];
    }
  }

  // ---------- a Mint's tries ----------

  function Inserts(run: seq<Step>, t: CallId): nat {
    if run == [] then 0
    else Inserts(run[..|run| - 1], t) + if run[|run| - 1].MintInsert? && run[|run| - 1].t == t then 1 else 0
  }

  /** The tries a Mint has made; one that has stored its token makes no more. */
  predicate Tried(mints: Mints, t: CallId, n: nat) {
    if t !in mints then n == 0
    else match mints[t]
      case Inserted(tries, _, _, _, _) => n == tries + 1 <= 5
      case Collided(tries, _) => n == tries + 1 <= 5
      case Retry(tries) => n == tries <= 5
      case _ => n <= 5
  }

  lemma TriedStep(c: Config, s: State, step: Step, t: CallId, n: nat)
    requires Enabled(c, s, step) && Tried(s.mints, t, n)
    ensures Tried(Apply(c, s, step).mints, t, n + if step.MintInsert? && step.t == t then 1 else 0)
  {
    if step.MintInsert? || step.MintStore? || step.MintRollback? {
      MinterNotGranted(c, s, step);
    } else {
      OtherMints(c, s, step);
    }
  }

  /** A Mint inserts at most five rows. */
  lemma {:induction false} AtMostFiveTries(c: Config, run: seq<Step>, t: CallId)
    requires ValidRun(c, run)
    ensures Tried(After(c, run).mints, t, Inserts(run, t)) && Inserts(run, t) <= 5
  {
    if run != [] {
      AtMostFiveTries(c, run[..|run| - 1], t);
      TriedStep(c, After(c, run[..|run| - 1]), run[|run| - 1], t, Inserts(run[..|run| - 1], t));
    }
  }

  // ---------- a room since its session's activation ----------

  /** This step activates the session. */
  predicate Activates(s: State, step: Step, sid: SessionId) {
    && step.RedeemUpdate? && step.t in s.redeems && s.redeems[step.t].Taken? && s.redeems[step.t].session == sid
    && sid in s.rows && s.rows[sid].status.Pending?
  }

  /** This step is a Leave of the room, by a peer that is inside. */
  predicate Leaves(s: State, step: Step, room: RoomId) {
    step.Exit? && step.p in s.peers && s.peers[step.p].room == room
  }

  /** ... and leaves nobody behind. */
  predicate LeavesEmpty(s: State, step: Step, room: RoomId) {
    Leaves(s, step, room) && forall q | q in s.peers && q != step.p && s.peers[q].pc.Inside? :: s.peers[q].room != room
  }

  /** A Leave of the room was not applied. */
  ghost predicate WasLost(c: Config, run: seq<Step>, room: RoomId)
    requires ValidRun(c, run)
  {
    run != [] &&
    var before, step := run[..|run| - 1], run[|run| - 1];
    WasLost(c, before, room) || (Leaves(After(c, before), step, room) && step.out == Failed(false))
  }

  /** A Leave has found the room empty: it worked, nobody was left, and no Leave of the room had been lost. */
  ghost predicate WasFoundEmpty(c: Config, run: seq<Step>, room: RoomId)
    requires ValidRun(c, run)
  {
    run != [] &&
    var before, step := run[..|run| - 1], run[|run| - 1];
    || WasFoundEmpty(c, before, room)
    || (LeavesEmpty(After(c, before), step, room) && step.out == Done && !WasLost(c, before, room))
  }

  /** Somebody has left the room since the session was activated last. */
  ghost predicate WasLeftSince(c: Config, run: seq<Step>, sid: SessionId)
    requires ValidRun(c, run)
  {
    run != [] &&
    var before, step := run[..|run| - 1], run[|run| - 1];
    !Activates(After(c, before), step, sid) && (WasLeftSince(c, before, sid) || Leaves(After(c, before), step, sid))
  }

  /** Since the session was activated last, the room was left empty without being found empty, or the UPDATE
      of its callback met an error. */
  ghost predicate WasMissedSince(c: Config, run: seq<Step>, sid: SessionId)
    requires ValidRun(c, run)
  {
    run != [] &&
    var before, step := run[..|run| - 1], run[|run| - 1];
    var s := After(c, before);
    && !Activates(s, step, sid)
    && (|| WasMissedSince(c, before, sid)
        || (LeavesEmpty(s, step, sid) && (step.out != Done || WasLost(c, before, sid)))
        || (step.Callback? && step.fails && step.p in s.peers && s.peers[step.p].room == sid))
  }

  lemma LeftStep(c: Config, s: State, step: Step, room: RoomId)
    requires Enabled(c, s, step)
    ensures room in Apply(c, s, step).left <==> !Activates(s, step, room) && (room in s.left || Leaves(s, step, room))
  {
    match step {
      case Tick(_) =>
      case MintInsert(_, _, _) =>
      case MintStore(_) =>
      case MintRollback(_, _) =>
      case MintGrant(_) =>
      case RedeemGet(_, _, _) =>
      case RedeemCount(_) =>
      case RedeemExpire(_) =>
      case RedeemDecide(_, _) =>
      case RedeemUpdate(_) =>
      case RedeemGrant(_) =>
      case Sweep(_) =>
      case Admit(_, _) =>
      case Enter(_) =>
      case Exit(_, _) =>
      case Callback(_, _) =>
    }
  }

  lemma LostAndFoundStep(c: Config, s: State, step: Step, room: RoomId)
    requires Enabled(c, s, step)
    ensures var s' := Apply(c, s, step);
            && (room in s'.lost <==> room in s.lost || (Leaves(s, step, room) && step.out == Failed(false)))
            && (room in s'.emptied <==> room in s.emptied || (LeavesEmpty(s, step, room) && step.out == Done && room !in s.lost))
  {
    match step {
      case Tick(_) =>
      case MintInsert(_, _, _) =>
      case MintStore(_) =>
      case MintRollback(_, _) =>
      case MintGrant(_) =>
      case RedeemGet(_, _, _) =>
      case RedeemCount(_) =>
      case RedeemExpire(_) =>
      case RedeemDecide(_, _) =>
      case RedeemUpdate(_) =>
      case RedeemGrant(_) =>
      case Sweep(_) =>
      case Admit(_, _) =>
      case Enter(_) =>
      case Exit(_, _) =>
      case Callback(_, _) =>
    }
  }

  lemma MissedStep(c: Config, s: State, step: Step, sid: SessionId)
    requires Enabled(c, s, step)
    ensures sid in Apply(c, s, step).missed <==>
            && !Activates(s, step, sid)
            && (|| sid in s.missed
                || (LeavesEmpty(s, step, sid) && (step.out != Done || sid in s.lost))
                || (step.Callback? && step.fails && s.peers[step.p].room == sid))
  {
    match step {
      case Tick(_) =>
      case MintInsert(_, _, _) =>
      case MintStore(_) =>
      case MintRollback(_, _) =>
      case MintGrant(_) =>
      case RedeemGet(_, _, _) =>
      case RedeemCount(_) =>
      case RedeemExpire(_) =>
      case RedeemDecide(_, _) =>
      case RedeemUpdate(_) =>
      case RedeemGrant(_) =>
      case Sweep(_) =>
      case Admit(_, _) =>
      case Enter(_) =>
      case Exit(_, _) =>
      case Callback(_, _) =>
    }
  }

  /** The records of the rooms are those of the run. */
  lemma {:induction false} RecordsAreTheRun(c: Config, run: seq<Step>, room: RoomId)
    requires ValidRun(c, run)
    ensures var s := After(c, run);
            && (room in s.lost <==> WasLost(c, run, room)) && (room in s.emptied <==> WasFoundEmpty(c, run, room))
            && (room in s.left <==> WasLeftSince(c, run, room)) && (room in s.missed <==> WasMissedSince(c, run, room))
  {
    if run != [] {
      RecordsAreTheRun(c, run[..|run| - 1], room);
      LeftStep(c, After(c, run[..|run| - 1]), run[|run| - 1], room);
      LostAndFoundStep(c, After(c, run[..|run| - 1]), run[|run| - 1], room);
      MissedStep(c, After(c, run[..|run| - 1]), run[|run| - 1], room);
    }
  }

  /** Sessions do end, said of the steps: an active session's room without a callback in flight is occupied,
      unless nobody has left it since the activation, or an emptying since then failed or came after a lost
      Leave, or a callback failed. And a session that has ended had its room found empty by a Leave. */
  lemma SessionsEndWithTheirRooms(c: Config, run: seq<Step>, sid: SessionId)
    requires c.Valid() && ValidRun(c, run) && sid in After(c, run).rows
    ensures After(c, run).rows[sid].status.Active? && !CallPending(After(c, run).peers, sid) ==>
              Occupied(After(c, run).peers, sid) || !WasLeftSince(c, run, sid) || WasMissedSince(c, run, sid)
    ensures After(c, run).rows[sid].status.Ended? ==> WasFoundEmpty(c, run, sid)
  {
    RecordsAreTheRun(c, run, sid);
    if After(c, run).rows[sid].status.Active? && !CallPending(After(c, run).peers, sid) {
      SessionsDoEnd(c, run, sid);
    }
    if After(c, run).rows[sid].status.Ended? {
      EndedRoomsWereEmptied(c, run, sid);
    }
  }
}
