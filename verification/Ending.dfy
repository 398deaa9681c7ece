/** Which active sessions can still come to an end.

    The end of a session hangs on one Leave being heard and one UPDATE succeeding. A session whose
    emptying was missed is not tried again, unless somebody joins its room once more.
 */
module Ending {
  import opened Rooms
  import opened Session
  import opened Lifecycle
  import opened Reentry
  import SingleUse

  predicate HasEnded(rows: Rows, sid: SessionId) {
    sid in rows && rows[sid].status.Ended?
  }

  /** A callback is about to run, or one can still be reached: no Leave of the room was lost, and a way into
      the room is open. */
  ghost predicate Endable(c: Config, s: State, sid: SessionId) {
    CallPending(s.peers, sid) || (sid !in s.lost && Open(c, s, sid))
  }

  // ---------- backwards ----------

  lemma EndedBefore(c: Config, s: State, step: Step, sid: SessionId)
    requires Enabled(c, s, step) && HasEnded(Apply(c, s, step).rows, sid)
    ensures HasEnded(s.rows, sid) || CallPending(s.peers, sid)
  {
    if MovesRows(step) {
      RowEndedBefore(c, s, step, sid);
    } else {
      RowsStay(c, s, step);
    }
  }

  lemma RowEndedBefore(c: Config, s: State, step: Step, sid: SessionId)
    requires Enabled(c, s, step) && MovesRows(step) && HasEnded(Apply(c, s, step).rows, sid)
    ensures HasEnded(s.rows, sid) || CallPending(s.peers, sid)
  {
    if step.Callback? && s.peers[step.p].room == sid {
      assert s.peers[step.p].pc.Calling?;
    }
  }

  lemma PendingBefore(c: Config, s: State, step: Step, sid: SessionId)
    requires Enabled(c, s, step) && CallPending(Apply(c, s, step).peers, sid)
    ensures CallPending(s.peers, sid) || (sid !in s.lost && Occupied(s.peers, sid))
  {
    var peers' := Apply(c, s, step).peers;
    var q :| q in peers' && peers'[q].pc.Calling? && peers'[q].room == sid;
    OnePeerMoves(c, s, step);
    if MovesPeer(step) && step.p == q {
      CallerBefore(c, s, step, sid);
    } else {
      assert q in s.peers && s.peers[q] == peers'[q];
    }
  }

  lemma CallerBefore(c: Config, s: State, step: Step, sid: SessionId)
    requires Enabled(c, s, step) && MovesPeer(step)
    requires var x := Apply(c, s, step).peers[step.p]; x.pc.Calling? && x.room == sid
    ensures sid !in s.lost && Occupied(s.peers, sid)
  {
    match step {
      case Admit(_, _) =>
      case Enter(_) =>
      case Exit(p, out) => assert s.peers[p].pc.Inside? && Reports(s, p, out);
      case Callback(_, _) =>
    }
  }

  lemma LostStays(c: Config, s: State, step: Step)
    requires Enabled(c, s, step)
    ensures s.lost <= Apply(c, s, step).lost
  {
    match step {
      case Tick(_) =>
      case MintInsert(_, _, _) =>
      case MintStore(_) =>
      case MintRollback(_, _) =>
      case MintGrant(_) =>
      case RedeemGet(_, _, _) =>
      case RedeemCount(_) =>
      case RedeemExpire(_) =>
      case RedeemDecide(_, _) =>
      case RedeemUpdate(_) =>
      case RedeemGrant(_) =>
      case Sweep(_) =>
      case Admit(_, _) =>
      case Enter(_) =>
      case Exit(_, _) =>
      case Callback(_, _) =>
    }
  }

  lemma EndableBefore(c: Config, s: State, step: Step, sid: SessionId)
    requires sid in s.stored && MintsInvOf(s) && Enabled(c, s, step)
    requires HasEnded(Apply(c, s, step).rows, sid) || Endable(c, Apply(c, s, step), sid)
    ensures HasEnded(s.rows, sid) || Endable(c, s, sid)
  {
    var s' := Apply(c, s, step);
    if HasEnded(s'.rows, sid) {
      EndedBefore(c, s, step, sid);
    } else if CallPending(s'.peers, sid) {
      PendingBefore(c, s, step, sid);
    } else {
      LostStays(c, s, step);
      OpenBefore(c, s, step, sid);
    }
  }

  lemma {:induction false} WasEndable(c: Config, run: seq<Step>, more: seq<Step>, sid: SessionId)
    requires c.Valid() && ValidRun(c, run) && sid in After(c, run).stored && ValidRun(c, run + more)
    requires HasEnded(After(c, run + more).rows, sid) || Endable(c, After(c, run + more), sid)
    ensures HasEnded(After(c, run).rows, sid) || Endable(c, After(c, run), sid)
    decreases |more|
  {
    if more == [] {
      assert run + more == run;
    } else {
      var less := more[..|more| - 1];
      assert (run + more)[..|run + more| - 1] == run + less;
      SingleUse.StoredStays(c, run, less, sid);
      assert MintsInvOf(After(c, run + less)) by { RunInv(c, run + less); }
      EndableBefore(c, After(c, run + less), more[|more| - 1], sid);
      WasEndable(c, run, less, sid);
    }
  }

  // ---------- forwards ----------

  function Insiders(peers: Peers, room: RoomId): set<PeerId> {
    set p | p in peers && peers[p].pc.Inside? && peers[p].room == room
  }

  lemma OneOut(c: Config, s: State, p: PeerId, sid: SessionId)
    requires p in Insiders(s.peers, sid) && sid !in s.lost
    ensures Enabled(c, s, Exit(p, Done))
    ensures var s' := Apply(c, s, Exit(p, Done));
            && s'.rows == s.rows && s'.lost == s.lost && Insiders(s'.peers, sid) == Insiders(s.peers, sid) - {p}
            && (CallPending(s'.peers, sid) || Occupied(s'.peers, sid))
  {
    var s' := Apply(c, s, Exit(p, Done));
    if Alone(s.peers, p) {
      assert s'.peers[p].pc.Calling?;
    } else {
      var q :| q in s.peers && q != p && s.peers[q].pc.Inside? && s.peers[q].room == sid;
      assert s'.peers[q].pc.Inside?;
    }
  }

  /** Everybody leaves, and is heard. */
  lemma {:induction false} AllOut(c: Config, run: seq<Step>, sid: SessionId) returns (run': seq<Step>)
    requires c.Valid() && ValidRun(c, run) && sid !in After(c, run).lost
    requires CallPending(After(c, run).peers, sid) || Occupied(After(c, run).peers, sid)
    ensures run <= run' && ValidRun(c, run') && CallPending(After(c, run').peers, sid) && After(c, run').rows == After(c, run).rows
    decreases |Insiders(After(c, run).peers, sid)|
  {
    if CallPending(After(c, run).peers, sid) {
      run' := run;
    } else {
      var s := After(c, run);
      var p :| p in s.peers && s.peers[p].pc.Inside? && s.peers[p].room == sid;
      OneOut(c, s, p, sid);
      Extend(c, run, Exit(p, Done));
      run' := AllOut(c, run + [Exit(p, Done)], sid);
    }
  }

  lemma CallsBack(c: Config, run: seq<Step>, sid: SessionId) returns (run': seq<Step>)
    requires c.Valid() && ValidRun(c, run) && CallPending(After(c, run).peers, sid)
    requires sid in After(c, run).rows && After(c, run).rows[sid].status.Active?
    ensures run <= run' && ValidRun(c, run') && HasEnded(After(c, run').rows, sid)
  {
    var s := After(c, run);
    var p :| p in s.peers && s.peers[p].pc.Calling? && s.peers[p].room == sid;
    Extend(c, run, Callback(p, false));
    run' := run + [Callback(p, false)];
  }

  lemma {:induction false} StaysOpened(c: Config, run: seq<Step>, more: seq<Step>, sid: SessionId)
    requires c.Valid() && ValidRun(c, run) && ValidRun(c, run + more) && sid in After(c, run).stored && Opened(After(c, run).rows, sid)
    ensures Opened(After(c, run + more).rows, sid)
    decreases |more|
  {
    if more == [] {
      assert run + more == run;
    } else {
      var less := more[..|more| - 1];
      assert (run + more)[..|run + more| - 1] == run + less;
      StaysOpened(c, run, less, sid);
      SingleUse.StoredStays(c, run, less, sid);
      var s := After(c, run + less);
      assert Old(s.stored, s.nextSession) && forall t | t in s.mints && s.mints[t].Private() :: s.mints[t].session !in s.stored by {
        RunInv(c, run + less);
        PrivateAreOld(s.rows.Keys, s.nextSession, s.mints, s.stored);
      }
      OpenStays(c, s, more[|more| - 1]);
    }
  }

  lemma WayOut(c: Config, run: seq<Step>, sid: SessionId) returns (run': seq<Step>)
    requires c.Valid() && ValidRun(c, run) && sid in After(c, run).stored && Opened(After(c, run).rows, sid)
    requires Endable(c, After(c, run), sid)
    ensures run <= run' && ValidRun(c, run') && HasEnded(After(c, run').rows, sid)
  {
    run' := run;
    if !CallPending(After(c, run).peers, sid) {
      run' := WayIn(c, run, sid);
      run' := AllOut(c, run', sid);
      assert run' == run + run'[|run|..];
      StaysOpened(c, run, run'[|run|..], sid);
    }
    if !HasEnded(After(c, run').rows, sid) {
      run' := CallsBack(c, run', sid);
    }
  }

  // ---------- the theorem ----------

  ghost predicate CanEnd(c: Config, run: seq<Step>, sid: SessionId) {
    exists more :: ValidRun(c, run + more) && HasEnded(After(c, run + more).rows, sid)
  }

  /** An active session can still end if and only if a callback of its room is in flight, or no Leave of
      the room was lost and somebody is in the room or can get in. So one whose room is empty stays active
      for ever exactly if a Leave of the room was lost or every way in is closed. */
  lemma CanEndExactly(c: Config, run: seq<Step>, sid: SessionId)
    requires c.Valid() && ValidRun(c, run) && sid in After(c, run).rows && After(c, run).rows[sid].status.Active?
    ensures CanEnd(c, run, sid) <==> Endable(c, After(c, run), sid)
  {
    RunOpenedStored(c, run);
    assert Opened(After(c, run).rows, sid);
    if CanEnd(c, run, sid) {
      var more :| ValidRun(c, run + more) && HasEnded(After(c, run + more).rows, sid);
      WasEndable(c, run, more, sid);
    }
    if Endable(c, After(c, run), sid) {
      var run' := WayOut(c, run, sid);
      assert run' == run + run'[|run|..];
    }
  }
}
