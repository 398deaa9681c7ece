/** A service call that runs alone is a run of the life cycle.

    The service methods are specified by what a whole call makes of the store; the life cycle cuts the calls at
    their statements. Here the steps of one call, each at the time of its statement, are run one after the
    other, with nothing but the passing of time in between, and leave what the method leaves.
 */
module Serial {
  import opened Rooms
  import S = Session
  import opened Lifecycle

  function StoreOf(s: State): S.Store {
    S.Store(s.rows, s.tokens, s.attempts)
  }

  /** The steps of one Redeem, and of one Mint. */
  predicate OfRedeem(step: Step, u: CallId) {
    || step.Tick?
    || ((step.RedeemGet? || step.RedeemCount? || step.RedeemExpire? || step.RedeemDecide? || step.RedeemUpdate? || step.RedeemGrant?)
        && step.t == u)
  }

  predicate OfMint(step: Step, t: CallId) {
    step.Tick? || ((step.MintInsert? || step.MintStore? || step.MintRollback? || step.MintGrant?) && step.t == t)
  }

  /** run' goes on from run with steps of this Redeem alone. */
  ghost predicate Redeems(c: Config, run: seq<Step>, run': seq<Step>, u: CallId) {
    && ValidRun(c, run) && ValidRun(c, run') && run <= run'
    && forall i | |run| <= i < |run'| :: OfRedeem(run'[i], u)
  }

  ghost predicate MintsAlone(c: Config, run: seq<Step>, run': seq<Step>, t: CallId) {
    && ValidRun(c, run) && ValidRun(c, run') && run <= run'
    && forall i | |run| <= i < |run'| :: OfMint(run'[i], t)
  }

  lemma RedeemsOn(c: Config, run: seq<Step>, run': seq<Step>, step: Step, u: CallId)
    requires Redeems(c, run, run', u) && Enabled(c, After(c, run'), step) && OfRedeem(step, u)
    ensures Redeems(c, run, run' + [step], u) && After(c, run' + [step]) == Apply(c, After(c, run'), step)
  {
    Extend(c, run', step);
  }

  lemma MintsOn(c: Config, run: seq<Step>, run': seq<Step>, step: Step, t: CallId)
    requires MintsAlone(c, run, run', t) && Enabled(c, After(c, run'), step) && OfMint(step, t)
    ensures MintsAlone(c, run, run' + [step], t) && After(c, run' + [step]) == Apply(c, After(c, run'), step)
  {
    Extend(c, run', step);
  }

  /** Until this moment. */
  lemma Later(c: Config, run: seq<Step>, run': seq<Step>, u: CallId, at: Time) returns (run'': seq<Step>)
    requires Redeems(c, run, run', u) && After(c, run').now <= at
    ensures Redeems(c, run, run'', u) && After(c, run'') == After(c, run').(now := at)
  {
    RedeemsOn(c, run, run', Tick(at - After(c, run').now), u);
    run'' := run' + [Tick(at - After(c, run').now)];
  }

  // ---------- Redeem ----------

  /** GET and INCR. */
  lemma GetAndCount(c: Config, run: seq<Step>, u: CallId, id: S.ConnectId, pin: S.Pin, clock: S.Clock, counts: bool) returns (run': seq<Step>)
    requires ValidRun(c, run) && u !in After(c, run).redeems && clock.Valid() && After(c, run).now == clock.get
    requires S.TokenLive(After(c, run).tokens, id, clock.get)
    ensures Redeems(c, run, run', u)
    ensures var s, s' := After(c, run), After(c, run');
            && s'.now == clock.incr && u in s'.redeems && s'.grants == s.grants
            && StoreOf(s') == StoreOf(s).(attempts := if counts then S.Incr(s.attempts, id, clock.incr) else s.attempts)
            && s'.redeems[u] == if counts then Counted(id, pin, s.tokens[id].rec, clock.get, s'.attempts[id].count)
                                else Got(id, pin, s.tokens[id].rec, clock.get)
  {
    RedeemsOn(c, run, run, RedeemGet(u, id, pin), u);
    run' := Later(c, run, run + [RedeemGet(u, id, pin)], u, clock.incr);
    if counts {
      RedeemsOn(c, run, run', RedeemCount(u), u);
      run' := run' + [RedeemCount(u)];
    }
  }

  /** EXPIRE, for the call that has started the counter. */
  lemma ExpireOrNot(c: Config, run: seq<Step>, run0: seq<Step>, u: CallId, clock: S.Clock, applied: bool) returns (run': seq<Step>)
    requires Redeems(c, run, run0, u) && clock.Valid() && After(c, run0).now == clock.incr
    requires u in After(c, run0).redeems && After(c, run0).redeems[u].Counted?
    ensures Redeems(c, run, run', u)
    ensures var s, s' := After(c, run0), After(c, run');
            s' == s.(now := clock.expire,
                     attempts := if s.redeems[u].n == 1 && applied then S.ExpireKey(s.attempts, s.redeems[u].id, clock.expire, c.ttl) else s.attempts)
  {
    run' := Later(c, run, run0, u, clock.expire);
    if After(c, run').redeems[u].n == 1 && applied {
      RedeemsOn(c, run, run', RedeemExpire(u), u);
      run' := run' + [RedeemExpire(u)];
    }
  }

  /** The comparison and the DEL. */
  lemma Decides(c: Config, run: seq<Step>, run0: seq<Step>, u: CallId, delFails: bool) returns (run': seq<Step>)
    requires Redeems(c, run, run0, u) && u in After(c, run0).redeems && After(c, run0).redeems[u].Counted?
    ensures Redeems(c, run, run', u)
    ensures var s, s', r := After(c, run0), After(c, run'), After(c, run0).redeems[u];
            var accepted := r.n <= 5 && r.pin == r.rec.pin;
            && s'.now == s.now && s'.grants == s.grants && u in s'.redeems
            && s'.redeems[u] == (if accepted then Taken(r.rec.session, r.at) else Refused)
            && StoreOf(s') == if (accepted || r.n > 5) && !delFails
                              then StoreOf(s).(tokens := s.tokens - {r.id}, attempts := s.attempts - {r.id}) else StoreOf(s)
  {
    RedeemsOn(c, run, run0, RedeemDecide(u, delFails), u);
    run' := run0 + [RedeemDecide(u, delFails)];
  }

  /** The UPDATE and the join token. */
  lemma Concludes(c: Config, run: seq<Step>, run0: seq<Step>, u: CallId, clock: S.Clock, fault: S.Fault) returns (run': seq<Step>)
    requires Redeems(c, run, run0, u) && clock.Valid() && After(c, run0).now == clock.expire && clock.update - clock.get <= c.redeemDelay
    requires u in After(c, run0).redeems && After(c, run0).redeems[u].Taken? && After(c, run0).redeems[u].at == clock.get
    ensures Redeems(c, run, run', u)
    ensures var s, s', sid := After(c, run0), After(c, run'), After(c, run0).redeems[u].session;
            && u in s'.redeems && (s'.redeems[u].Joined? <==> fault.update.Done? && !fault.issue)
            && (s'.redeems[u].Joined? ==> s'.redeems[u].session == sid)
            && s'.grants == (if fault.update.Done? && !fault.issue then s.grants + {Grant(sid, Phone, Seconds(clock.update + c.signalingTtl))}
                             else s.grants)
            && StoreOf(s') == StoreOf(s).(rows := if fault.update == Failed(false) then s.rows else S.Activate(s.rows, sid, clock.update))
  {
    run' := Later(c, run, run0, u, clock.update);
    if fault.update != Failed(false) {
      RedeemsOn(c, run, run', RedeemUpdate(u), u);
      run' := run' + [RedeemUpdate(u)];
      if fault.update.Done? && !fault.issue {
        RedeemsOn(c, run, run', RedeemGrant(u), u);
        run' := run' + [RedeemGrant(u)];
      }
    }
  }

  /** A call that has read a live token and counted itself, up to its decision. */
  lemma UpToDecision(c: Config, run: seq<Step>, u: CallId, id: S.ConnectId, pin: S.Pin, clock: S.Clock, fault: S.Fault) returns (run': seq<Step>)
    requires ValidRun(c, run) && u !in After(c, run).redeems && clock.Valid() && After(c, run).now == clock.get
    requires S.TokenLive(After(c, run).tokens, id, clock.get) && !fault.get && fault.incr.Done?
    ensures Redeems(c, run, run', u)
    ensures var s, s' := After(c, run), After(c, run');
            var course := S.CourseOf(StoreOf(s), id, pin, clock, fault);
            && s'.now == clock.expire && s'.grants == s.grants && u in s'.redeems
            && s'.redeems[u] == (if course.Consumed? then Taken(s.tokens[id].rec.session, clock.get) else Refused)
            && StoreOf(s') == if course.Mismatch? then StoreOf(s).(attempts := S.Counted(s.attempts, id, clock, fault, c.ttl))
                              else S.Invalidated(StoreOf(s), id, clock, fault, c.ttl)
  {
    run' := GetAndCount(c, run, u, id, pin, clock, true);
    run' := ExpireOrNot(c, run, run', u, clock, fault.expire != Failed(false));
    assert After(c, run').attempts == S.Counted(After(c, run).attempts, id, clock, fault, c.ttl);
    assert After(c, run').attempts - {id} == After(c, run).attempts - {id};
    run' := Decides(c, run, run', u, fault.del == Failed(false));
  }

  /** What a whole Redeem makes of the store, and whether it returns a JoinInfo, is what its steps make of it at
      the times of its statements: each statement that is applied is its step, and the call goes no further
      than its first error. */
  lemma RedeemIsItsSteps(c: Config, run: seq<Step>, u: CallId, id: S.ConnectId, pin: S.Pin, clock: S.Clock, fault: S.Fault) returns (run': seq<Step>)
    requires ValidRun(c, run) && u !in After(c, run).redeems
    requires clock.Valid() && After(c, run).now == clock.get && clock.update - clock.get <= c.redeemDelay
    ensures Redeems(c, run, run', u)
    ensures StoreOf(After(c, run')) == S.RedeemStore(StoreOf(After(c, run)), id, pin, clock, fault, c.ttl)
    ensures Answers(c, After(c, run), After(c, run'), u, id, clock,
                    S.CourseOf(StoreOf(After(c, run)), id, pin, clock, fault).Consumed? && fault.update.Done? && !fault.issue)
  {
    run' := run;
    if !fault.get && S.TokenLive(After(c, run).tokens, id, clock.get) {
      if fault.incr.Done? {
        run' := UpToDecision(c, run, u, id, pin, clock, fault);
        if After(c, run').redeems[u].Taken? {
          run' := Concludes(c, run, run', u, clock, fault);
        }
      } else {
        run' := GetAndCount(c, run, u, id, pin, clock, fault.incr != Failed(false));
      }
    }
  }

  /** The call returns a JoinInfo with a phone's join token for the session of the token it has read, or none. */
  predicate Answers(c: Config, s: State, s': State, u: CallId, id: S.ConnectId, clock: S.Clock, joins: bool) {
    && (u in s'.redeems && s'.redeems[u].Joined? <==> joins)
    && if joins
       then id in s.tokens && s'.redeems[u].session == s.tokens[id].rec.session
            && s'.grants == s.grants + {Grant(s.tokens[id].rec.session, Phone, Seconds(clock.update + c.signalingTtl))}
       else s'.grants == s.grants
  }

  // ---------- Mint ----------

  /** The tries come one after the other, none before `start`, and each stores within the delay. */
  ghost predicate Timed(c: Config, start: Time, tries: seq<S.Try>) {
    && (forall j | 0 <= j < |tries| :: start <= tries[j].insertAt <= tries[j].storeAt <= tries[j].insertAt + c.mintDelay)
    && forall j, k | 0 <= j < k < |tries| :: tries[j].storeAt <= tries[k].insertAt
  }

  lemma LaterMint(c: Config, run: seq<Step>, run': seq<Step>, t: CallId, at: Time) returns (run'': seq<Step>)
    requires MintsAlone(c, run, run', t) && After(c, run').now <= at
    ensures MintsAlone(c, run, run'', t) && After(c, run'') == After(c, run').(now := at)
  {
    MintsOn(c, run, run', Tick(at - After(c, run').now), t);
    run'' := run' + [Tick(at - After(c, run').now)];
  }

  /** After i tries that met a live connect id and were rolled back. */
  predicate HasTried(s: State, s': State, t: CallId, tries: seq<S.Try>, i: nat)
    requires i <= |tries|
  {
    && (if i == 0 then t !in s'.mints else t in s'.mints && s'.mints[t] == Retry(i))
    && s'.now == (if i == 0 then s.now else tries[i - 1].storeAt) && s'.nextSession == s.nextSession + i && s'.grants == s.grants
    && StoreOf(s') == StoreOf(s).(rows := S.AfterTries(s.rows, s.nextSession, tries, i))
  }

  /** The INSERT of the next try. */
  lemma Inserts(c: Config, run: seq<Step>, run0: seq<Step>, t: CallId, tries: seq<S.Try>, i: nat, pin: S.Pin) returns (run': seq<Step>)
    requires MintsAlone(c, run, run0, t) && i < |tries| && i < 5 && HasTried(After(c, run), After(c, run0), t, tries, i)
    requires After(c, run0).now <= tries[i].insertAt
    ensures MintsAlone(c, run, run', t)
    ensures var s, s', sid := After(c, run0), After(c, run'), After(c, run).nextSession + i;
            && s'.now == tries[i].insertAt && s'.nextSession == sid + 1 && s'.grants == s.grants
            && t in s'.mints && s'.mints[t] == Inserted(i, tries[i].id, pin, sid, tries[i].insertAt)
            && StoreOf(s') == StoreOf(s).(rows := S.InsertRow(s.rows, sid, tries[i].insertAt))
  {
    run' := LaterMint(c, run, run0, t, tries[i].insertAt);
    MintsOn(c, run, run', MintInsert(t, tries[i].id, pin), t);
    run' := run' + [MintInsert(t, tries[i].id, pin)];
  }

  /** Its SET NX. */
  lemma Stores(c: Config, run: seq<Step>, run0: seq<Step>, t: CallId, x: S.Try) returns (run': seq<Step>)
    requires MintsAlone(c, run, run0, t) && After(c, run0).now == x.insertAt <= x.storeAt <= x.insertAt + c.mintDelay
    requires var s := After(c, run0); t in s.mints && s.mints[t].Inserted? && s.mints[t].id == x.id && s.mints[t].at == x.insertAt
    ensures MintsAlone(c, run, run', t)
    ensures var s, s', m := After(c, run0), After(c, run'), After(c, run0).mints[t];
            && s'.now == x.storeAt && s'.nextSession == s.nextSession && s'.grants == s.grants && t in s'.mints
            && s'.mints[t] == (if S.TokenLive(s.tokens, x.id, x.storeAt) then Collided(m.tries, m.session) else Stored(m.session))
            && StoreOf(s') == StoreOf(s).(tokens := S.SetNX(s.tokens, x.id, S.Record(m.session, m.pin), x.storeAt, c.ttl))
  {
    run' := LaterMint(c, run, run0, t, x.storeAt);
    MintsOn(c, run, run', MintStore(t), t);
    run' := run' + [MintStore(t)];
  }

  lemma RollsBack(c: Config, run: seq<Step>, run0: seq<Step>, t: CallId, fails: bool) returns (run': seq<Step>)
    requires MintsAlone(c, run, run0, t) && t in After(c, run0).mints && After(c, run0).mints[t].Collided?
    ensures MintsAlone(c, run, run', t)
    ensures var s, s', m := After(c, run0), After(c, run'), After(c, run0).mints[t];
            && s'.now == s.now && s'.nextSession == s.nextSession && s'.grants == s.grants
            && t in s'.mints && s'.mints[t] == Retry(m.tries + 1)
            && StoreOf(s') == StoreOf(s).(rows := if fails then s.rows else s.rows - {m.session})
  {
    MintsOn(c, run, run0, MintRollback(t, fails), t);
    run' := run0 + [MintRollback(t, fails)];
  }

  ghost predicate NewIds(rows: S.Rows, next: S.SessionId) {
    forall sid | sid in rows :: sid < next
  }

  lemma RowsOfTry(rows: S.Rows, first: S.SessionId, tries: seq<S.Try>, i: nat)
    requires i < |tries| && NewIds(rows, first)
    ensures var inserted := S.InsertRow(S.AfterTries(rows, first, tries, i), first + i, tries[i].insertAt);
            S.AfterTries(rows, first, tries, i + 1) == if tries[i].deleteFails then inserted else inserted - {first + i}
  {
    S.TriesLeaveRows(rows, first, tries, i);
  }

  lemma OneTakenTry(c: Config, run: seq<Step>, run0: seq<Step>, t: CallId, tries: seq<S.Try>, i: nat, pin: S.Pin) returns (run': seq<Step>)
    requires MintsAlone(c, run, run0, t) && NewIds(After(c, run).rows, After(c, run).nextSession)
    requires i < |tries| <= 5 && HasTried(After(c, run), After(c, run0), t, tries, i)
    requires After(c, run0).now <= tries[i].insertAt <= tries[i].storeAt <= tries[i].insertAt + c.mintDelay
    requires S.TokenLive(After(c, run).tokens, tries[i].id, tries[i].storeAt)
    ensures MintsAlone(c, run, run', t) && HasTried(After(c, run), After(c, run'), t, tries, i + 1)
  {
    RowsOfTry(After(c, run).rows, After(c, run).nextSession, tries, i);
    run' := Inserts(c, run, run0, t, tries, i, pin);
    run' := Stores(c, run, run', t, tries[i]);
    run' := RollsBack(c, run, run', t, tries[i].deleteFails);
  }

  /** Tries that meet a live connect id leave what Session.AfterTries says. */
  lemma {:induction false} TakenTries(c: Config, run: seq<Step>, t: CallId, tries: seq<S.Try>, i: nat, pin: S.Pin) returns (run': seq<Step>)
    requires ValidRun(c, run) && t !in After(c, run).mints && NewIds(After(c, run).rows, After(c, run).nextSession)
    requires i <= |tries| <= 5 && Timed(c, After(c, run).now, tries) && S.AllTaken(After(c, run).tokens, tries, i)
    ensures MintsAlone(c, run, run', t) && HasTried(After(c, run), After(c, run'), t, tries, i)
  {
    run' := run;
    if i > 0 {
      run' := TakenTries(c, run, t, tries, i - 1, pin);
      run' := OneTakenTry(c, run, run', t, tries, i - 1, pin);
    }
  }

  /** What a whole Mint leaves when all five connect ids are taken is what its steps leave. */
  lemma ExhaustedMintIsItsSteps(c: Config, run: seq<Step>, t: CallId, tries: seq<S.Try>, pin: S.Pin) returns (run': seq<Step>)
    requires c.Valid() && ValidRun(c, run) && t !in After(c, run).mints && |tries| == 5 && Timed(c, After(c, run).now, tries)
    requires S.AllTaken(After(c, run).tokens, tries, 5)
    ensures MintsAlone(c, run, run', t)
    ensures var s, s' := After(c, run), After(c, run');
            && s'.grants == s.grants && t in s'.mints && s'.mints[t] == Retry(5)
            && StoreOf(s') == StoreOf(s).(rows := S.AfterTries(s.rows, s.nextSession, tries, 5))
  {
    assert NewIds(After(c, run).rows, After(c, run).nextSession) by { RunInv(c, run); }
    run' := TakenTries(c, run, t, tries, 5, pin);
  }

  /** The INSERT and the SET NX of the last try, after n others. */
  lemma LastTrySteps(c: Config, run: seq<Step>, run0: seq<Step>, t: CallId, tries: seq<S.Try>, n: nat, pin: S.Pin) returns (run': seq<Step>)
    requires MintsAlone(c, run, run0, t) && n < |tries| == 5 && HasTried(After(c, run), After(c, run0), t, tries, n)
    requires After(c, run0).now <= tries[n].insertAt <= tries[n].storeAt <= tries[n].insertAt + c.mintDelay
    requires S.LastTry(After(c, run).tokens, tries, n)
    ensures MintsAlone(c, run, run', t) && After(c, run').grants == After(c, run).grants
    ensures var s, s', x, sid := After(c, run), After(c, run'), tries[n], After(c, run).nextSession + n;
            var left := S.AfterTries(s.rows, s.nextSession, tries, n);
            && (x.insert.Done? && x.store.Done? ==> s'.now == x.storeAt && t in s'.mints && s'.mints[t] == Stored(sid))
            && (x.insert.Failed? || x.store.Failed? ==> t in s'.mints ==> !s'.mints[t].Granted?)
            && StoreOf(s') == S.Store(if x.insert == Failed(false) then left else S.InsertRow(left, sid, x.insertAt),
                                      if x.insert.Failed? || x.store == Failed(false) then s.tokens
                                      else S.SetNX(s.tokens, x.id, S.Record(sid, pin), x.storeAt, c.ttl),
                                      s.attempts)
  {
    run' := run0;
    if tries[n].insert != Failed(false) {
      run' := Inserts(c, run, run', t, tries, n, pin);
      if tries[n].insert.Done? && tries[n].store != Failed(false) {
        run' := Stores(c, run, run', t, tries[n]);
      }
    }
  }

  lemma Grants(c: Config, run: seq<Step>, run0: seq<Step>, t: CallId) returns (run': seq<Step>)
    requires MintsAlone(c, run, run0, t) && t in After(c, run0).mints && After(c, run0).mints[t].Stored?
    ensures MintsAlone(c, run, run', t)
    ensures var s, s', sid := After(c, run0), After(c, run'), After(c, run0).mints[t].session;
            && StoreOf(s') == StoreOf(s) && t in s'.mints && s'.mints[t] == Granted(sid)
            && s'.grants == s.grants + {Grant(sid, Agent, Seconds(s.now + c.signalingTtl))}
  {
    MintsOn(c, run, run0, MintGrant(t), t);
    run' := run0 + [MintGrant(t)];
  }

  /** The call has returned the agent's join token for the session of its last try, or none. */
  predicate Returned(c: Config, s: State, s': State, t: CallId, at: Time, sid: S.SessionId, minted: bool) {
    && (t in s'.mints && s'.mints[t].Granted? <==> minted)
    && if minted then s'.mints[t].session == sid && s'.grants == s.grants + {Grant(sid, Agent, Seconds(at + c.signalingTtl))}
       else s'.grants == s.grants
  }

  /** What the last try of a Mint answers and leaves, whatever error it meets, is what its steps leave: each
      statement that is applied is its step, and the call goes no further than its first error. */
  lemma MintIsItsSteps(c: Config, run: seq<Step>, t: CallId, tries: seq<S.Try>, n: nat, pin: S.Pin, signFails: bool) returns (run': seq<Step>)
    requires c.Valid() && ValidRun(c, run) && t !in After(c, run).mints && n < |tries| == 5 && Timed(c, After(c, run).now, tries)
    requires S.LastTry(After(c, run).tokens, tries, n)
    ensures MintsAlone(c, run, run', t)
    ensures var s, s' := After(c, run), After(c, run');
            var minted := tries[n].insert.Done? && tries[n].store.Done? && !signFails;
            && Returned(c, s, s', t, tries[n].storeAt, s.nextSession + n, minted)
            && S.EndsAt(StoreOf(s), s.nextSession, tries, n, pin, signFails, c.ttl,
                        if minted then Ok(S.Minted(s.nextSession + n, tries[n].id)) else Err(S.StoreFailed), StoreOf(s'))
  {
    assert NewIds(After(c, run).rows, After(c, run).nextSession) by { RunInv(c, run); }
    run' := TakenTries(c, run, t, tries, n, pin);
    run' := LastTrySteps(c, run, run', t, tries, n, pin);
    if tries[n].insert.Done? && tries[n].store.Done? && !signFails {
      run' := Grants(c, run, run', t);
    }
  }
}
