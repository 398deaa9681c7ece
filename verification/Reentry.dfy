/** When anybody can get into a session's room again, whatever has become of the session.

    Join tokens are not withdrawn when a session ends, and Mints and Redeems underway still hand them
    out. A room that is empty stays empty exactly if all of these ways in are closed.
 */
module Reentry {
  import opened Rooms
  import opened Session
  import opened Lifecycle
  import opened SingleUse

  ghost predicate InsideAs(peers: Peers, sid: SessionId, role: Role) {
    exists p | p in peers :: peers[p].pc.Inside? && peers[p].room == sid && peers[p].role == role
  }

  ghost predicate Waiting(peers: Peers, sid: SessionId, role: Role) {
    exists p | p in peers :: peers[p].pc.Admitted? && peers[p].room == sid && peers[p].role == role
  }

  ghost predicate HasGrant(grants: set<Grant>, now: Time, sid: SessionId, role: Role) {
    exists g | g in grants :: g.room == sid && g.role == role && now < g.expires
  }

  /** A Mint that has stored the token and has yet to sign the agent's join token. */
  ghost predicate Minting(mints: Mints, sid: SessionId) {
    exists t | t in mints :: mints[t].Stored? && mints[t].session == sid
  }

  /** A Redeem that can still come to sign the phone's join token: its UPDATE, if it is yet to come, must
      follow its GET within the delay. */
  predicate Promising(c: Config, now: Time, r: RedeemPc, sid: SessionId) {
    || (r.Updated? && r.session == sid)
    || (r.Taken? && r.session == sid && now - r.at <= c.redeemDelay)
    || (Reading(r) && r.rec.session == sid && r.pin == r.rec.pin && (r.Counted? ==> r.n <= MAX_REDEEM_TRIES)
        && now - r.at <= c.redeemDelay)
  }

  ghost predicate Redeeming(c: Config, redeems: Redeems, now: Time, sid: SessionId) {
    exists t | t in redeems :: Promising(c, now, redeems[t], sid)
  }

  /** The ways in: an agent's go through a Mint, a phone's through a Redeem. */
  ghost predicate OpenTo(c: Config, s: State, sid: SessionId, role: Role) {
    || InsideAs(s.peers, sid, role)
    || Waiting(s.peers, sid, role)
    || HasGrant(s.grants, s.now, sid, role)
    || (role == Agent && Minting(s.mints, sid))
    || (role == Phone && (Redeeming(c, s.redeems, s.now, sid) || HasLiveToken(s, sid)))
  }

  ghost predicate Open(c: Config, s: State, sid: SessionId) {
    OpenTo(c, s, sid, Agent) || OpenTo(c, s, sid, Phone)
  }

  // ---------- a closed room stays closed ----------

  lemma PeersBefore(c: Config, s: State, step: Step, sid: SessionId, role: Role)
    requires Enabled(c, s, step)
    requires InsideAs(Apply(c, s, step).peers, sid, role) || Waiting(Apply(c, s, step).peers, sid, role)
    ensures InsideAs(s.peers, sid, role) || Waiting(s.peers, sid, role) || HasGrant(s.grants, s.now, sid, role)
  {
    var peers' := Apply(c, s, step).peers;
    OnePeerMoves(c, s, step);
    var q :| q in peers' && (peers'[q].pc.Inside? || peers'[q].pc.Admitted?) && peers'[q].room == sid && peers'[q].role == role;
    if MovesPeer(step) && step.p == q {
      PeerBefore(c, s, step, sid, role);
    } else {
      assert q in s.peers && s.peers[q] == peers'[q];
    }
  }

  lemma PeerBefore(c: Config, s: State, step: Step, sid: SessionId, role: Role)
    requires Enabled(c, s, step) && MovesPeer(step)
    requires var x := Apply(c, s, step).peers[step.p]; (x.pc.Inside? || x.pc.Admitted?) && x.room == sid && x.role == role
    ensures Waiting(s.peers, sid, role) || HasGrant(s.grants, s.now, sid, role)
  {
    match step {
      case Admit(_, g) => assert g in s.grants && g.room == sid && g.role == role;
      case Enter(p) => assert s.peers[p].pc.Admitted?;
      case Exit(_, _) =>
      case Callback(_, _) =>
    }
  }

  lemma GrantBefore(c: Config, s: State, step: Step, sid: SessionId, role: Role)
    requires Enabled(c, s, step) && HasGrant(Apply(c, s, step).grants, Apply(c, s, step).now, sid, role)
    ensures || HasGrant(s.grants, s.now, sid, role) || (role == Agent && Minting(s.mints, sid))
            || (role == Phone && Redeeming(c, s.redeems, s.now, sid))
  {
    var s' := Apply(c, s, step);
    var g :| g in s'.grants && g.room == sid && g.role == role && s'.now < g.expires;
    NowGrows(c, s, step);
    if step.MintGrant? {
      MintGrantBefore(c, s, step.t, g);
    } else if step.RedeemGrant? {
      RedeemGrantBefore(c, s, step.t, g);
    } else {
      GrantsStay(c, s, step);
      assert g in s.grants;
    }
  }

  lemma MintGrantBefore(c: Config, s: State, t: CallId, g: Grant)
    requires Enabled(c, s, MintGrant(t)) && g in Apply(c, s, MintGrant(t)).grants && s.now < g.expires
    ensures HasGrant(s.grants, s.now, g.room, g.role) || (g.role == Agent && Minting(s.mints, g.room))
  {
    if g !in s.grants {
      assert s.mints[t].session == g.room;
    }
  }

  lemma RedeemGrantBefore(c: Config, s: State, t: CallId, g: Grant)
    requires Enabled(c, s, RedeemGrant(t)) && g in Apply(c, s, RedeemGrant(t)).grants && s.now < g.expires
    ensures HasGrant(s.grants, s.now, g.room, g.role) || (g.role == Phone && Redeeming(c, s.redeems, s.now, g.room))
  {
    if g !in s.grants {
      assert Promising(c, s.now, s.redeems[t], g.room);
    }
  }

  lemma NowGrows(c: Config, s: State, step: Step)
    requires Enabled(c, s, step)
    ensures s.now <= Apply(c, s, step).now
  {
  }

  lemma MintingBefore(c: Config, s: State, step: Step, sid: SessionId)
    requires sid in s.stored && MintsInvOf(s) && Enabled(c, s, step) && Minting(Apply(c, s, step).mints, sid)
    ensures Minting(s.mints, sid)
  {
    var mints' := Apply(c, s, step).mints;
    var t :| t in mints' && mints'[t].Stored? && mints'[t].session == sid;
    if step.MintInsert? || step.MintStore? || step.MintRollback? {
      OtherMintIsThere(c, s, step, t, sid);
    } else {
      OtherMints(c, s, step);
    }
    assert t in s.mints && s.mints[t].Stored? && s.mints[t].session == sid;
  }

  lemma OtherMintIsThere(c: Config, s: State, step: Step, t: CallId, sid: SessionId)
    requires sid in s.stored && MintsInvOf(s) && Enabled(c, s, step) && (step.MintInsert? || step.MintStore? || step.MintRollback?)
    requires var m := Apply(c, s, step).mints; t in m && m[t].Stored? && m[t].session == sid
    ensures t in s.mints && s.mints[t] == Apply(c, s, step).mints[t]
  {
    match step {
      case MintInsert(_, _, _) =>
      case MintStore(u) => assert s.mints[u].session !in s.stored;
      case MintRollback(_, _) =>
    }
  }

  lemma MovedWasPromising(c: Config, s: State, step: Step, sid: SessionId)
    requires Enabled(c, s, step) && MovesRedeem(step) && !step.RedeemGet?
    requires Promising(c, s.now, Apply(c, s, step).redeems[step.t], sid)
    ensures Promising(c, s.now, s.redeems[step.t], sid)
  {
    match step {
      case RedeemCount(_) =>
      case RedeemDecide(_, _) =>
      case RedeemUpdate(_) =>
      case RedeemGrant(_) =>
    }
  }

  lemma ReadsLiveToken(c: Config, s: State, step: Step, sid: SessionId)
    requires Enabled(c, s, step) && step.RedeemGet? && Promising(c, s.now, Apply(c, s, step).redeems[step.t], sid)
    ensures HasLiveToken(s, sid)
  {
    assert TokenLive(s.tokens, step.id, s.now);
  }

  lemma RedeemingBefore(c: Config, s: State, step: Step, sid: SessionId)
    requires Enabled(c, s, step) && Redeeming(c, Apply(c, s, step).redeems, Apply(c, s, step).now, sid)
    ensures Redeeming(c, s.redeems, s.now, sid) || HasLiveToken(s, sid)
  {
    var s' := Apply(c, s, step);
    var t :| t in s'.redeems && Promising(c, s'.now, s'.redeems[t], sid);
    OneRedeemMoves(c, s, step);
    NowGrows(c, s, step);
    assert Promising(c, s.now, s'.redeems[t], sid);
    if step.RedeemGet? && step.t == t {
      ReadsLiveToken(c, s, step, sid);
    } else if MovesRedeem(step) && step.t == t {
      MovedWasPromising(c, s, step, sid);
    } else {
      assert t in s.redeems && s.redeems[t] == s'.redeems[t];
    }
  }

  lemma OpenToBefore(c: Config, s: State, step: Step, sid: SessionId, role: Role)
    requires sid in s.stored && MintsInvOf(s) && Enabled(c, s, step) && OpenTo(c, Apply(c, s, step), sid, role)
    ensures OpenTo(c, s, sid, role)
  {
    var s' := Apply(c, s, step);
    if InsideAs(s'.peers, sid, role) || Waiting(s'.peers, sid, role) {
      PeersBefore(c, s, step, sid, role);
    } else if HasGrant(s'.grants, s'.now, sid, role) {
      GrantBefore(c, s, step, sid, role);
    } else if role == Agent {
      MintingBefore(c, s, step, sid);
    } else if Redeeming(c, s'.redeems, s'.now, sid) {
      RedeemingBefore(c, s, step, sid);
    } else {
      LiveBefore(c, s, step, sid);
    }
  }

  lemma OpenBefore(c: Config, s: State, step: Step, sid: SessionId)
    requires sid in s.stored && MintsInvOf(s) && Enabled(c, s, step) && Open(c, Apply(c, s, step), sid)
    ensures Open(c, s, sid)
  {
    if OpenTo(c, Apply(c, s, step), sid, Agent) {
      OpenToBefore(c, s, step, sid, Agent);
    } else {
      OpenToBefore(c, s, step, sid, Phone);
    }
  }

  lemma WasOpenOne(c: Config, before: seq<Step>, step: Step, sid: SessionId, role: Role)
    requires c.Valid() && ValidRun(c, before) && Enabled(c, After(c, before), step) && sid in After(c, before).stored
    requires OpenTo(c, Apply(c, After(c, before), step), sid, role)
    ensures OpenTo(c, After(c, before), sid, role)
  {
    assert MintsInvOf(After(c, before)) by { RunInv(c, before); }
    OpenToBefore(c, After(c, before), step, sid, role);
  }

  lemma {:induction false} WasOpen(c: Config, run: seq<Step>, more: seq<Step>, sid: SessionId, role: Role)
    requires c.Valid() && ValidRun(c, run) && sid in After(c, run).stored
    requires ValidRun(c, run + more) && OpenTo(c, After(c, run + more), sid, role)
    ensures OpenTo(c, After(c, run), sid, role)
    decreases |more|
  {
    if more == [] {
      assert run + more == run;
    } else {
      var less := more[..|more| - 1];
      assert (run + more)[..|run + more| - 1] == run + less;
      StoredStays(c, run, less, sid);
      WasOpenOne(c, run + less, more[|more| - 1], sid, role);
      WasOpen(c, run, less, sid, role);
    }
  }

  // ---------- every way in leads in ----------

  lemma FromWaiting(c: Config, run: seq<Step>, p: PeerId, sid: SessionId, role: Role) returns (run': seq<Step>)
    requires c.Valid() && ValidRun(c, run)
    requires var peers := After(c, run).peers; p in peers && peers[p].pc.Admitted? && peers[p].room == sid && peers[p].role == role
    ensures run <= run' && ValidRun(c, run') && InsideAs(After(c, run').peers, sid, role) && After(c, run').lost == After(c, run).lost
  {
    Extend(c, run, Enter(p));
    run' := run + [Enter(p)];
    assert After(c, run').peers[p].pc.Inside?;
  }

  lemma FromGrant(c: Config, run: seq<Step>, g: Grant, sid: SessionId, role: Role) returns (run': seq<Step>)
    requires c.Valid() && ValidRun(c, run) && g in After(c, run).grants && g.room == sid && g.role == role && After(c, run).now < g.expires
    ensures run <= run' && ValidRun(c, run') && InsideAs(After(c, run').peers, sid, role) && After(c, run').lost == After(c, run).lost
  {
    var p := Fresh(After(c, run).peers.Keys);
    Extend(c, run, Admit(p, g));
    run' := FromWaiting(c, run + [Admit(p, g)], p, sid, role);
  }

  lemma FromMinting(c: Config, run: seq<Step>, t: CallId, sid: SessionId) returns (run': seq<Step>)
    requires c.Valid() && ValidRun(c, run)
    requires var mints := After(c, run).mints; t in mints && mints[t].Stored? && mints[t].session == sid
    ensures run <= run' && ValidRun(c, run') && InsideAs(After(c, run').peers, sid, Agent) && After(c, run').lost == After(c, run).lost
  {
    PatienceSuffices(After(c, run).now, c.signalingTtl);
    var d := Patience(After(c, run).now, c.signalingTtl);
    Extend(c, run, Tick(d));
    run' := run + [Tick(d)];
    Extend(c, run', MintGrant(t));
    run' := FromGrant(c, run' + [MintGrant(t)], Grant(sid, Agent, Seconds(After(c, run').now + c.signalingTtl)), sid, Agent);
  }

  lemma FromUpdated(c: Config, run: seq<Step>, t: CallId, sid: SessionId) returns (run': seq<Step>)
    requires c.Valid() && ValidRun(c, run)
    requires var redeems := After(c, run).redeems; t in redeems && redeems[t] == Updated(sid)
    ensures run <= run' && ValidRun(c, run') && InsideAs(After(c, run').peers, sid, Phone) && After(c, run').lost == After(c, run).lost
  {
    PatienceSuffices(After(c, run).now, c.signalingTtl);
    var d := Patience(After(c, run).now, c.signalingTtl);
    Extend(c, run, Tick(d));
    run' := run + [Tick(d)];
    Extend(c, run', RedeemGrant(t));
    run' := FromGrant(c, run' + [RedeemGrant(t)], Grant(sid, Phone, Seconds(After(c, run').now + c.signalingTtl)), sid, Phone);
  }

  lemma FromTaken(c: Config, run: seq<Step>, t: CallId, sid: SessionId) returns (run': seq<Step>)
    requires c.Valid() && ValidRun(c, run)
    requires var s := After(c, run);
             t in s.redeems && s.redeems[t].Taken? && s.redeems[t].session == sid && s.now - s.redeems[t].at <= c.redeemDelay
    ensures run <= run' && ValidRun(c, run') && InsideAs(After(c, run').peers, sid, Phone) && After(c, run').lost == After(c, run).lost
  {
    Extend(c, run, RedeemUpdate(t));
    run' := FromUpdated(c, run + [RedeemUpdate(t)], t, sid);
  }

  lemma FromReader(c: Config, run: seq<Step>, u: CallId, sid: SessionId) returns (run': seq<Step>)
    requires c.Valid() && ValidRun(c, run) && Acceptable(After(c, run), u, sid)
    requires u in After(c, run).redeems ==> After(c, run).now - After(c, run).redeems[u].at <= c.redeemDelay
    ensures run <= run' && ValidRun(c, run') && InsideAs(After(c, run').peers, sid, Phone) && After(c, run').lost == After(c, run).lost
  {
    run' := AcceptableGoesOn(c, run, u, sid);
    Extend(c, run', RedeemDecide(u, false));
    run' := FromTaken(c, run' + [RedeemDecide(u, false)], u, sid);
  }

  lemma FromPromising(c: Config, run: seq<Step>, t: CallId, sid: SessionId) returns (run': seq<Step>)
    requires c.Valid() && ValidRun(c, run)
    requires t in After(c, run).redeems && Promising(c, After(c, run).now, After(c, run).redeems[t], sid)
    ensures run <= run' && ValidRun(c, run') && InsideAs(After(c, run').peers, sid, Phone) && After(c, run').lost == After(c, run).lost
  {
    var r := After(c, run).redeems[t];
    if r.Updated? {
      run' := FromUpdated(c, run, t, sid);
    } else if r.Taken? {
      run' := FromTaken(c, run, t, sid);
    } else {
      run' := FromReader(c, run, t, sid);
    }
  }

  lemma RoleWayIn(c: Config, run: seq<Step>, sid: SessionId, role: Role) returns (run': seq<Step>)
    requires c.Valid() && ValidRun(c, run) && OpenTo(c, After(c, run), sid, role)
    ensures run <= run' && ValidRun(c, run') && InsideAs(After(c, run').peers, sid, role) && After(c, run').lost == After(c, run).lost
  {
    var s := After(c, run);
    if InsideAs(s.peers, sid, role) {
      run' := run;
    } else if Waiting(s.peers, sid, role) {
      var p :| p in s.peers && s.peers[p].pc.Admitted? && s.peers[p].room == sid && s.peers[p].role == role;
      run' := FromWaiting(c, run, p, sid, role);
    } else if HasGrant(s.grants, s.now, sid, role) {
      var g :| g in s.grants && g.room == sid && g.role == role && s.now < g.expires;
      run' := FromGrant(c, run, g, sid, role);
    } else if role == Agent {
      var t :| t in s.mints && s.mints[t].Stored? && s.mints[t].session == sid;
      run' := FromMinting(c, run, t, sid);
    } else if Redeeming(c, s.redeems, s.now, sid) {
      var t :| t in s.redeems && Promising(c, s.now, s.redeems[t], sid);
      run' := FromPromising(c, run, t, sid);
    } else {
      var u := Fresh(s.redeems.Keys);
      run' := FromReader(c, run, u, sid);
    }
  }

  lemma WayIn(c: Config, run: seq<Step>, sid: SessionId) returns (run': seq<Step>)
    requires c.Valid() && ValidRun(c, run) && Open(c, After(c, run), sid)
    ensures run <= run' && ValidRun(c, run') && Occupied(After(c, run').peers, sid) && After(c, run').lost == After(c, run).lost
  {
    run' := RoleWayIn(c, run, sid, if OpenTo(c, After(c, run), sid, Agent) then Agent else Phone);
  }

  // ---------- the theorems ----------

  ghost predicate CanBeInside(c: Config, run: seq<Step>, sid: SessionId, role: Role) {
    exists more :: ValidRun(c, run + more) && InsideAs(After(c, run + more).peers, sid, role)
  }

  ghost predicate CanBeOccupied(c: Config, run: seq<Step>, sid: SessionId) {
    exists more :: ValidRun(c, run + more) && Occupied(After(c, run + more).peers, sid)
  }

  /** A peer of this role can be in the room of a session whose token was stored, now or later, if and only if
      one of the role's ways in is open. */
  lemma InsideAgainExactly(c: Config, run: seq<Step>, sid: SessionId, role: Role)
    requires c.Valid() && ValidRun(c, run) && sid in After(c, run).stored
    ensures CanBeInside(c, run, sid, role) <==> OpenTo(c, After(c, run), sid, role)
  {
    if CanBeInside(c, run, sid, role) {
      var more :| ValidRun(c, run + more) && InsideAs(After(c, run + more).peers, sid, role);
      WasOpen(c, run, more, sid, role);
    }
    if OpenTo(c, After(c, run), sid, role) {
      var run' := RoleWayIn(c, run, sid, role);
      assert run' == run + run'[|run|..];
    }
  }

  /** So the room can be occupied, now or later, if and only if one of the ways in is open to some role. */
  lemma OccupiedAgainExactly(c: Config, run: seq<Step>, sid: SessionId)
    requires c.Valid() && ValidRun(c, run) && sid in After(c, run).stored
    ensures CanBeOccupied(c, run, sid) <==> Open(c, After(c, run), sid)
  {
    InsideAgainExactly(c, run, sid, Agent);
    InsideAgainExactly(c, run, sid, Phone);
    if CanBeOccupied(c, run, sid) {
      var more :| ValidRun(c, run + more) && Occupied(After(c, run + more).peers, sid);
      var p :| p in After(c, run + more).peers && After(c, run + more).peers[p].pc.Inside? && After(c, run + more).peers[p].room == sid;
      assert InsideAs(After(c, run + more).peers, sid, After(c, run + more).peers[p].role);
    }
    if Open(c, After(c, run), sid) {
      var run' := WayIn(c, run, sid);
      assert run' == run + run'[|run|..];
    }
  }

  ghost predicate JustStored(s: State) {
    && TokenLive(s.tokens, 0, s.now) && s.tokens[0].rec.session == 0
    && 0 in s.mints && s.mints[0].Stored? && s.mints[0].session == 0
  }

  lemma StoresToken(c: Config, s: State)
    requires c.Valid() && 0 in s.mints && s.mints[0] == Inserted(0, 0, 7, 0, s.now) && s.tokens == map[]
    ensures Enabled(c, s, MintStore(0)) && JustStored(Apply(c, s, MintStore(0)))
  {
  }

  lemma OneMint(c: Config) returns (run: seq<Step>)
    requires c.Valid()
    ensures ValidRun(c, run) && JustStored(After(c, run))
  {
    Extend(c, [], MintInsert(0, 0, 7));
    run := [] + [MintInsert(0, 0, 7)];
    StoresToken(c, After(c, run));
    Extend(c, run, MintStore(0));
    run := run + [MintStore(0)];
  }

  lemma JustStoredIsOpen(c: Config, s: State, role: Role)
    requires JustStored(s)
    ensures OpenTo(c, s, 0, role)
  {
    if role == Agent {
      assert Minting(s.mints, 0);
    } else {
      assert HasLiveToken(s, 0);
    }
  }

  /** There is a run in which an agent gets inside, and one in which a phone does. */
  lemma EitherRoleGetsIn(c: Config, role: Role)
    requires c.Valid()
    ensures exists run :: ValidRun(c, run) && InsideAs(After(c, run).peers, 0, role)
  {
    var run := OneMint(c);
    JustStoredIsOpen(c, After(c, run), role);
    var run' := RoleWayIn(c, run, 0, role);
  }

  ghost predicate OpenedAreStored(rows: Rows, stored: set<SessionId>) {
    forall sid | Opened(rows, sid) :: sid in stored
  }

  lemma UpdateOpensStored(c: Config, s: State, t: CallId)
    requires OpenedAreStored(s.rows, s.stored) && RedeemsInv(s.redeems, s.stored) && Enabled(c, s, RedeemUpdate(t))
    ensures OpenedAreStored(Apply(c, s, RedeemUpdate(t)).rows, s.stored)
  {
    assert s.redeems[t].Session() == Some(s.redeems[t].session);
  }

  lemma OthersOpenNothing(c: Config, s: State, step: Step)
    requires OpenedAreStored(s.rows, s.stored) && Enabled(c, s, step) && MovesRows(step) && !step.RedeemUpdate?
    ensures OpenedAreStored(Apply(c, s, step).rows, s.stored)
  {
  }

  lemma {:induction false} RunOpenedStored(c: Config, run: seq<Step>)
    requires c.Valid() && ValidRun(c, run)
    ensures OpenedAreStored(After(c, run).rows, After(c, run).stored)
  {
    if run != [] {
      var s, step := After(c, run[..|run| - 1]), run[|run| - 1];
      RunOpenedStored(c, run[..|run| - 1]);
      RunInv(c, run[..|run| - 1]);
      if step.RedeemUpdate? {
        UpdateOpensStored(c, s, step.t);
      } else if MovesRows(step) {
        OthersOpenNothing(c, s, step);
      } else {
        RowsStay(c, s, step);
      }
      StoredGrows(c, s, step);
    }
  }

  /** In particular for a session that has ended: its room can be joined again exactly if somebody is
      still inside or admitted, a join token for it is unexpired, a Mint or Redeem of it can still hand one
      out, or its connection token is live. */
  lemma EndedRoomIsJoinedAgainExactly(c: Config, run: seq<Step>, sid: SessionId)
    requires c.Valid() && ValidRun(c, run) && sid in After(c, run).rows && After(c, run).rows[sid].status.Ended?
    ensures CanBeOccupied(c, run, sid) <==> Open(c, After(c, run), sid)
  {
    RunOpenedStored(c, run);
    assert Opened(After(c, run).rows, sid);
    OccupiedAgainExactly(c, run, sid);
  }
}
