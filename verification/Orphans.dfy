/** Which session rows a Mint leaves behind, under any interleaving. */
module Orphans {
  import opened Rooms
  import opened Session
  import opened Lifecycle

  /** The sessions whose rows call t has inserted in the run. */
  ghost function InsertedBy(c: Config, run: seq<Step>, t: CallId): set<SessionId>
    requires ValidRun(c, run)
  {
    if run == [] then {}
    else
      var before, step := run[..|run| - 1], run[|run| - 1];
      InsertedBy(c, before, t) + if step.MintInsert? && step.t == t then {After(c, before).nextSession} else {}
  }

  /** ... and those of them whose roll-back has failed. */
  ghost function FailedRollbacks(c: Config, run: seq<Step>, t: CallId): set<SessionId>
    requires ValidRun(c, run)
  {
    if run == [] then {}
    else
      var before, step := run[..|run| - 1], run[|run| - 1];
      FailedRollbacks(c, before, t) +
      if step.MintRollback? && step.t == t && step.fails then {After(c, before).mints[t].session} else {}
  }

  /** The session a Mint is at, or has granted. */
  function Current(mints: Mints, t: CallId): set<SessionId> {
    if t in mints && !mints[t].Retry? then {mints[t].session} else {}
  }

  /** What a call has inserted and is still there is what it is at and what it could not roll back. */
  ghost predicate Accounted(keys: set<SessionId>, next: SessionId, mints: Mints, t: CallId, inserted: set<SessionId>, failed: set<SessionId>) {
    && (forall sid | sid in inserted :: sid < next)
    && failed <= inserted && Current(mints, t) <= inserted && failed !! Current(mints, t)
    && inserted * keys == failed + Current(mints, t)
  }

  lemma OwnInsert(keys: set<SessionId>, next: SessionId, mints: Mints, t: CallId, inserted: set<SessionId>, failed: set<SessionId>, m: MintPc)
    requires Accounted(keys, next, mints, t, inserted, failed) && Current(mints, t) == {} && !m.Retry? && m.session == next
    requires next !in keys
    ensures Accounted(keys + {next}, next + 1, mints[t := m], t, inserted + {next}, failed)
  {
    assert (inserted + {next}) * (keys + {next}) == inserted * keys + {next};
  }

  lemma OwnMove(keys: set<SessionId>, next: SessionId, mints: Mints, t: CallId, inserted: set<SessionId>, failed: set<SessionId>, m: MintPc)
    requires Accounted(keys, next, mints, t, inserted, failed) && Current(mints[t := m], t) == Current(mints, t)
    ensures Accounted(keys, next, mints[t := m], t, inserted, failed)
  {
  }

  lemma OwnRollback(keys: set<SessionId>, next: SessionId, mints: Mints, t: CallId, inserted: set<SessionId>, failed: set<SessionId>,
                    m: MintPc, fails: bool)
    requires Accounted(keys, next, mints, t, inserted, failed) && t in mints && !mints[t].Retry? && m.Retry?
    ensures var sid := mints[t].session;
            Accounted(if fails then keys else keys - {sid}, next, mints[t := m], t, inserted, if fails then failed + {sid} else failed)
  {
    var sid := mints[t].session;
    assert inserted * (keys - {sid}) == inserted * keys - {sid};
  }

  lemma OthersMove(keys: set<SessionId>, next: SessionId, mints: Mints, t: CallId, inserted: set<SessionId>, failed: set<SessionId>,
                   keys': set<SessionId>, next': SessionId, mints': Mints)
    requires Accounted(keys, next, mints, t, inserted, failed) && Current(mints', t) == Current(mints, t) && next <= next'
    requires forall sid | sid in inserted :: sid in keys <==> sid in keys'
    ensures Accounted(keys', next', mints', t, inserted, failed)
  {
    assert inserted * keys' == inserted * keys;
  }

  /** Sessions are numbered, so no two calls insert the same one. */
  lemma {:induction false} InsertedApart(c: Config, run: seq<Step>, t: CallId, u: CallId)
    requires ValidRun(c, run)
    ensures forall sid | sid in InsertedBy(c, run, t) :: sid < After(c, run).nextSession
    ensures t != u ==> InsertedBy(c, run, t) !! InsertedBy(c, run, u)
  {
    if run != [] {
      var before := run[..|run| - 1];
      InsertedApart(c, before, t, u);
      InsertedApart(c, before, u, t);
      NextGrows(c, After(c, before), run[|run| - 1]);
    }
  }

  lemma NextGrows(c: Config, s: State, step: Step)
    requires Enabled(c, s, step)
    ensures Apply(c, s, step).nextSession == if step.MintInsert? then s.nextSession + 1 else s.nextSession
  {
    if !step.MintInsert? && !step.MintStore? {
      StoredStay(c, s, step);
    }
  }

  predicate MovesMint(step: Step) {
    step.MintInsert? || step.MintStore? || step.MintRollback? || step.MintGrant?
  }

  lemma OwnStep(c: Config, s: State, step: Step, inserted: set<SessionId>, failed: set<SessionId>)
    requires Enabled(c, s, step) && MovesMint(step) && RowsInv(s.now, s.nextSession, s.rows)
    requires Accounted(s.rows.Keys, s.nextSession, s.mints, step.t, inserted, failed)
    ensures var s' := Apply(c, s, step);
            Accounted(s'.rows.Keys, s'.nextSession, s'.mints, step.t,
                      inserted + (if step.MintInsert? then {s.nextSession} else {}),
                      failed + if step.MintRollback? && step.fails then {s.mints[step.t].session} else {})
  {
    if step.MintInsert? {
      OwnInsertStep(c, s, step, inserted, failed);
    } else if step.MintRollback? {
      OwnRollbackStep(c, s, step, inserted, failed);
    } else {
      OwnMoveStep(c, s, step, inserted, failed);
    }
  }

  lemma OwnInsertStep(c: Config, s: State, step: Step, inserted: set<SessionId>, failed: set<SessionId>)
    requires Enabled(c, s, step) && step.MintInsert? && RowsInv(s.now, s.nextSession, s.rows)
    requires Accounted(s.rows.Keys, s.nextSession, s.mints, step.t, inserted, failed)
    ensures var s' := Apply(c, s, step);
            Accounted(s'.rows.Keys, s'.nextSession, s'.mints, step.t, inserted + {s.nextSession}, failed + {})
  {
    var s' := Apply(c, s, step);
    OwnInsert(s.rows.Keys, s.nextSession, s.mints, step.t, inserted, failed, s'.mints[step.t]);
    assert s'.rows.Keys == s.rows.Keys + {s.nextSession} && failed + {} == failed;
  }

  lemma OwnRollbackStep(c: Config, s: State, step: Step, inserted: set<SessionId>, failed: set<SessionId>)
    requires Enabled(c, s, step) && step.MintRollback?
    requires Accounted(s.rows.Keys, s.nextSession, s.mints, step.t, inserted, failed)
    ensures var s' := Apply(c, s, step);
            Accounted(s'.rows.Keys, s'.nextSession, s'.mints, step.t, inserted + {},
                      failed + if step.fails then {s.mints[step.t].session} else {})
  {
    var s', sid := Apply(c, s, step), s.mints[step.t].session;
    OwnRollback(s.rows.Keys, s.nextSession, s.mints, step.t, inserted, failed, s'.mints[step.t], step.fails);
    assert s'.rows.Keys == if step.fails then s.rows.Keys else s.rows.Keys - {sid};
    assert inserted + {} == inserted && failed + {} == failed;
  }

  lemma OwnMoveStep(c: Config, s: State, step: Step, inserted: set<SessionId>, failed: set<SessionId>)
    requires Enabled(c, s, step) && (step.MintStore? || step.MintGrant?)
    requires Accounted(s.rows.Keys, s.nextSession, s.mints, step.t, inserted, failed)
    ensures var s' := Apply(c, s, step); Accounted(s'.rows.Keys, s'.nextSession, s'.mints, step.t, inserted + {}, failed + {})
  {
    var s' := Apply(c, s, step);
    KeysStay(c, s, step);
    OwnMove(s.rows.Keys, s.nextSession, s.mints, step.t, inserted, failed, s'.mints[step.t]);
    assert inserted + {} == inserted && failed + {} == failed;
  }

  /** A step of another call, or of no Mint at all. */
  lemma OtherStep(c: Config, s: State, step: Step, t: CallId, inserted: set<SessionId>, failed: set<SessionId>)
    requires Enabled(c, s, step) && !(MovesMint(step) && step.t == t)
    requires Accounted(s.rows.Keys, s.nextSession, s.mints, t, inserted, failed)
    requires step.MintRollback? ==> s.mints[step.t].session !in inserted
    ensures var s' := Apply(c, s, step); Accounted(s'.rows.Keys, s'.nextSession, s'.mints, t, inserted, failed)
  {
    var s' := Apply(c, s, step);
    NextGrows(c, s, step);
    MintElsewhere(c, s, step, t);
    if step.MintInsert? {
      assert s'.rows.Keys == s.rows.Keys + {s.nextSession};
    } else if !step.MintRollback? {
      KeysStay(c, s, step);
    }
    OthersMove(s.rows.Keys, s.nextSession, s.mints, t, inserted, failed, s'.rows.Keys, s'.nextSession, s'.mints);
  }

  lemma MintElsewhere(c: Config, s: State, step: Step, t: CallId)
    requires Enabled(c, s, step) && !(MovesMint(step) && step.t == t)
    ensures Current(Apply(c, s, step).mints, t) == Current(s.mints, t)
  {
    if !step.MintInsert? && !step.MintStore? && !step.MintRollback? {
      OtherMints(c, s, step);
    }
  }

  /** Of the rows a call has inserted, those still there are the one it is at or has granted and those
      whose roll-back failed. */
  lemma {:induction false} RowsOfMint(c: Config, run: seq<Step>, t: CallId)
    requires c.Valid() && ValidRun(c, run)
    ensures var s := After(c, run);
            Accounted(s.rows.Keys, s.nextSession, s.mints, t, InsertedBy(c, run, t), FailedRollbacks(c, run, t))
  {
    if run != [] {
      var before, step := run[..|run| - 1], run[|run| - 1];
      var s := After(c, before);
      RowsOfMint(c, before, t);
      RunInv(c, before);
      if MovesMint(step) && step.t == t {
        OwnStep(c, s, step, InsertedBy(c, before, t), FailedRollbacks(c, before, t));
      } else {
        if step.MintRollback? {
          RowsOfMint(c, before, step.t);
          InsertedApart(c, before, t, step.t);
        }
        OtherStep(c, s, step, t, InsertedBy(c, before, t), FailedRollbacks(c, before, t));
        assert InsertedBy(c, run, t) == InsertedBy(c, before, t);
        assert FailedRollbacks(c, run, t) == FailedRollbacks(c, before, t);
      }
    }
  }

  /** A Mint that has used up its tries, or is between two of them, has left no row behind if and only if
      none of its roll-backs failed. */
  lemma ExhaustedMintLeavesNothing(c: Config, run: seq<Step>, t: CallId)
    requires c.Valid() && ValidRun(c, run) && t in After(c, run).mints && After(c, run).mints[t].Retry?
    ensures InsertedBy(c, run, t) * After(c, run).rows.Keys == FailedRollbacks(c, run, t)
    ensures InsertedBy(c, run, t) !! After(c, run).rows.Keys <==> FailedRollbacks(c, run, t) == {}
  {
    RowsOfMint(c, run, t);
  }

  lemma {:induction false} EveryRowWasInserted(c: Config, run: seq<Step>, sid: SessionId) returns (t: CallId)
    requires ValidRun(c, run) && sid in After(c, run).rows
    ensures sid in InsertedBy(c, run, t)
  {
    var before, step := run[..|run| - 1], run[|run| - 1];
    if sid in After(c, before).rows {
      t := EveryRowWasInserted(c, before, sid);
    } else {
      NewRowIsNext(c, After(c, before), step, sid);
      t := step.t;
    }
  }

  lemma NewRowIsNext(c: Config, s: State, step: Step, sid: SessionId)
    requires Enabled(c, s, step) && sid !in s.rows && sid in Apply(c, s, step).rows
    ensures step.MintInsert? && sid == s.nextSession
  {
    if !step.MintInsert? && !step.MintRollback? {
      KeysStay(c, s, step);
    }
  }

  ghost predicate LeftBehind(c: Config, run: seq<Step>, t: CallId, sid: SessionId)
    requires ValidRun(c, run)
  {
    sid in FailedRollbacks(c, run, t)
  }

  /** Every row belongs to a session whose token was stored, to the current try of some Mint, or to a try
      whose roll-back failed. */
  lemma EveryRowHasAnOwner(c: Config, run: seq<Step>, sid: SessionId)
    requires c.Valid() && ValidRun(c, run) && sid in After(c, run).rows
    ensures var s := After(c, run);
            || sid in s.stored
            || (exists t | t in s.mints :: s.mints[t].Private() && s.mints[t].session == sid)
            || (exists t :: LeftBehind(c, run, t, sid))
  {
    var t := EveryRowWasInserted(c, run, sid);
    RowsOfMint(c, run, t);
    RunInv(c, run);
    var s := After(c, run);
    assert sid in InsertedBy(c, run, t) * s.rows.Keys;
    if !LeftBehind(c, run, t, sid) {
      assert sid in Current(s.mints, t);
      if !s.mints[t].Private() {
        assert sid in s.stored;
      }
    }
  }
}
