/** When a connection token is accepted more than once.

    The service reads the token, counts itself, compares the PIN and only then deletes the token, each
    with a statement of its own. A second acceptance after a deletion that worked is therefore possible
    for exactly the calls that had read the token before; after one that failed, for every later call too.
 */
module SingleUse {
  import opened Rooms
  import opened Session
  import opened Lifecycle

  /** Between reading the token and deciding. */
  predicate Reading(r: RedeemPc) {
    r.Got? || r.Counted?
  }

  predicate Holds(s: State, u: CallId, sid: SessionId) {
    u in s.redeems && Reading(s.redeems[u]) && s.redeems[u].rec.session == sid
  }

  /** The call has read the session's token, was given its PIN and, if it has counted itself, is within
      the limit. */
  predicate Ready(s: State, u: CallId, sid: SessionId) {
    && Holds(s, u, sid) && s.redeems[u].pin == s.redeems[u].rec.pin
    && (s.redeems[u].Counted? ==> s.redeems[u].n <= MAX_REDEEM_TRIES)
  }

  /** The call's next step accepts the PIN. */
  predicate Accepting(s: State, u: CallId, sid: SessionId) {
    Ready(s, u, sid) && s.redeems[u].Counted?
  }

  /** Readers of one session's token read it under one connect id, and the token is nowhere else. */
  ghost predicate KeyInv(tokens: Tokens, redeems: Redeems) {
    && (forall t, id | t in redeems && Reading(redeems[t]) && id in tokens && tokens[id].rec.session == redeems[t].rec.session ::
          id == redeems[t].id)
    && forall t, u | t in redeems && Reading(redeems[t]) && u in redeems && Reading(redeems[u])
         && redeems[t].rec.session == redeems[u].rec.session :: redeems[t].id == redeems[u].id
  }

  ghost predicate HasLiveToken(s: State, sid: SessionId) {
    exists id :: TokenLive(s.tokens, id, s.now) && s.tokens[id].rec.session == sid
  }

  /** A call that has read the token and may go on, or one that may still read it. */
  ghost predicate Acceptable(s: State, u: CallId, sid: SessionId) {
    Ready(s, u, sid) || (u !in s.redeems && HasLiveToken(s, sid))
  }

  // ---------- the invariant ----------

  lemma NewToken(tokens: Tokens, redeems: Redeems, stored: set<SessionId>, id: ConnectId, e: Entry)
    requires KeyInv(tokens, redeems) && RedeemsInv(redeems, stored) && e.rec.session !in stored
    ensures KeyInv(tokens[id := e], redeems)
  {
    forall t | t in redeems && Reading(redeems[t]) ensures redeems[t].rec.session in stored {
      assert redeems[t].Session() == Some(redeems[t].rec.session);
    }
  }

  lemma FewerReaders(tokens: Tokens, redeems: Redeems, tokens': Tokens, t: CallId, r: RedeemPc)
    requires KeyInv(tokens, redeems) && !Reading(r)
    requires forall id | id in tokens' :: id in tokens && tokens'[id] == tokens[id]
    ensures KeyInv(tokens', redeems[t := r])
  {
  }

  lemma NewReader(tokens: Tokens, redeems: Redeems, stored: set<SessionId>, t: CallId, r: RedeemPc)
    requires KeyInv(tokens, redeems) && TokensInv(tokens, stored)
    requires r.Got? && r.id in tokens && r.rec == tokens[r.id].rec
    ensures KeyInv(tokens, redeems[t := r])
  {
  }

  lemma SameReader(tokens: Tokens, redeems: Redeems, t: CallId, r: RedeemPc)
    requires KeyInv(tokens, redeems) && t in redeems && Reading(redeems[t])
    requires Reading(r) && r.id == redeems[t].id && r.rec == redeems[t].rec
    ensures KeyInv(tokens, redeems[t := r])
  {
  }

  lemma StoreKeys(c: Config, s: State, t: CallId)
    requires KeyInv(s.tokens, s.redeems) && RedeemsInv(s.redeems, s.stored) && MintsInvOf(s) && Enabled(c, s, MintStore(t))
    ensures var s' := Apply(c, s, MintStore(t)); KeyInv(s'.tokens, s'.redeems)
  {
    var m := s.mints[t];
    NewToken(s.tokens, s.redeems, s.stored, m.id, Entry(Record(m.session, m.pin), s.now + c.ttl));
  }

  lemma DecideKeys(c: Config, s: State, t: CallId, delFails: bool)
    requires KeyInv(s.tokens, s.redeems) && Enabled(c, s, RedeemDecide(t, delFails))
    ensures var s' := Apply(c, s, RedeemDecide(t, delFails)); KeyInv(s'.tokens, s'.redeems)
  {
    var s' := Apply(c, s, RedeemDecide(t, delFails));
    FewerReaders(s.tokens, s.redeems, s'.tokens, t, s'.redeems[t]);
  }

  lemma ReaderKeys(c: Config, s: State, step: Step)
    requires KeyInv(s.tokens, s.redeems) && TokensInv(s.tokens, s.stored) && Enabled(c, s, step)
    requires MovesRedeem(step) && !step.RedeemDecide?
    ensures var s' := Apply(c, s, step); KeyInv(s'.tokens, s'.redeems)
  {
    var s' := Apply(c, s, step);
    match step {
      case RedeemGet(t, _, _) => NewReader(s.tokens, s.redeems, s.stored, t, s'.redeems[t]);
      case RedeemCount(t) => SameReader(s.tokens, s.redeems, t, s'.redeems[t]);
      case RedeemUpdate(t) => FewerReaders(s.tokens, s.redeems, s.tokens, t, s'.redeems[t]);
      case RedeemGrant(t) => FewerReaders(s.tokens, s.redeems, s.tokens, t, s'.redeems[t]);
    }
  }

  lemma KeyStep(c: Config, s: State, step: Step)
    requires KeyInv(s.tokens, s.redeems) && KnownInv(s) && Enabled(c, s, step)
    ensures KeyInv(Apply(c, s, step).tokens, Apply(c, s, step).redeems)
  {
    if step.MintStore? {
      StoreKeys(c, s, step.t);
    } else if step.RedeemDecide? {
      DecideKeys(c, s, step.t, step.delFails);
    } else if MovesRedeem(step) {
      ReaderKeys(c, s, step);
    } else {
      TokensStay(c, s, step);
      OneRedeemMoves(c, s, step);
    }
  }

  lemma {:induction false} RunKeys(c: Config, run: seq<Step>)
    requires c.Valid() && ValidRun(c, run)
    ensures KeyInv(After(c, run).tokens, After(c, run).redeems)
  {
    if run != [] {
      RunKeys(c, run[..|run| - 1]);
      RunInv(c, run[..|run| - 1]);
      KeyStep(c, After(c, run[..|run| - 1]), run[|run| - 1]);
    }
  }

  // ---------- backwards: who is accepted was acceptable ----------

  /** A session whose token was stored gets no other token. */
  lemma LiveBefore(c: Config, s: State, step: Step, sid: SessionId)
    requires sid in s.stored && MintsInvOf(s) && Enabled(c, s, step) && HasLiveToken(Apply(c, s, step), sid)
    ensures HasLiveToken(s, sid)
  {
    var s' := Apply(c, s, step);
    var id :| TokenLive(s'.tokens, id, s'.now) && s'.tokens[id].rec.session == sid;
    if step.MintStore? {
      StoredElsewhere(c, s, step.t, id, sid);
    } else if !step.RedeemDecide? {
      TokensStay(c, s, step);
    }
    assert TokenLive(s.tokens, id, s.now);
  }

  lemma StoredElsewhere(c: Config, s: State, t: CallId, id: ConnectId, sid: SessionId)
    requires sid in s.stored && MintsInvOf(s) && Enabled(c, s, MintStore(t))
    requires id in Apply(c, s, MintStore(t)).tokens && Apply(c, s, MintStore(t)).tokens[id].rec.session == sid
    ensures id in s.tokens && s.tokens[id] == Apply(c, s, MintStore(t)).tokens[id]
  {
  }

  lemma MoverWasReady(c: Config, s: State, step: Step, sid: SessionId)
    requires Enabled(c, s, step) && MovesRedeem(step) && Ready(Apply(c, s, step), step.t, sid)
    ensures if step.RedeemGet? then step.t !in s.redeems && HasLiveToken(s, sid) else Ready(s, step.t, sid)
  {
    match step {
      case RedeemGet(_, id, _) => assert TokenLive(s.tokens, id, s.now);
      case RedeemCount(_) =>
      case RedeemDecide(_, _) =>
      case RedeemUpdate(_) =>
      case RedeemGrant(_) =>
    }
  }

  lemma AcceptableBefore(c: Config, s: State, step: Step, u: CallId, sid: SessionId)
    requires sid in s.stored && MintsInvOf(s) && Enabled(c, s, step) && Acceptable(Apply(c, s, step), u, sid)
    ensures Acceptable(s, u, sid)
  {
    OneRedeemMoves(c, s, step);
    if Ready(Apply(c, s, step), u, sid) {
      if MovesRedeem(step) && step.t == u {
        MoverWasReady(c, s, step, sid);
      }
    } else {
      LiveBefore(c, s, step, sid);
    }
  }

  lemma {:induction false} WasAcceptable(c: Config, run: seq<Step>, more: seq<Step>, u: CallId, sid: SessionId)
    requires c.Valid() && ValidRun(c, run) && sid in After(c, run).stored
    requires ValidRun(c, run + more) && Acceptable(After(c, run + more), u, sid)
    ensures Acceptable(After(c, run), u, sid)
    decreases |more|
  {
    if more == [] {
      assert run + more == run;
    } else {
      var less := more[..|more| - 1];
      assert (run + more)[..|run + more| - 1] == run + less;
      StoredStays(c, run, less, sid);
      RunInv(c, run + less);
      AcceptableBefore(c, After(c, run + less), more[|more| - 1], u, sid);
      WasAcceptable(c, run, less, u, sid);
    }
  }

  lemma {:induction false} StoredStays(c: Config, run: seq<Step>, more: seq<Step>, sid: SessionId)
    requires c.Valid() && ValidRun(c, run) && ValidRun(c, run + more) && sid in After(c, run).stored
    ensures sid in After(c, run + more).stored
    decreases |more|
  {
    if more == [] {
      assert run + more == run;
    } else {
      var less := more[..|more| - 1];
      assert (run + more)[..|run + more| - 1] == run + less;
      StoredStays(c, run, less, sid);
      StoredGrows(c, After(c, run + less), more[|more| - 1]);
    }
  }

  // ---------- forwards: who is acceptable can be accepted ----------

  lemma {:induction false} Fresh(ids: set<CallId>) returns (t: CallId)
    ensures forall u | u in ids :: u < t
    decreases |ids|
  {
    if ids == {} {
      t := 0;
    } else {
      var u :| u in ids;
      t := Fresh(ids - {u});
      t := if u < t then t else u + 1;
      forall v | v in ids ensures v < t { assert v == u || v in ids - {u}; }
    }
  }

  /** A continuation that takes no time and leaves the calls as they are. */
  ghost predicate Aside(c: Config, run: seq<Step>, run': seq<Step>) {
    && ValidRun(c, run) && run <= run' && ValidRun(c, run') && After(c, run').now == After(c, run).now
    && After(c, run').lost == After(c, run).lost
    && forall u | u in After(c, run).redeems :: u in After(c, run').redeems && After(c, run').redeems[u] == After(c, run).redeems[u]
  }

  /** A Mint that happens to draw this connect id. */
  lemma SomeLiveToken(c: Config, run: seq<Step>, id: ConnectId) returns (run': seq<Step>)
    requires c.Valid() && ValidRun(c, run)
    ensures Aside(c, run, run') && TokenLive(After(c, run').tokens, id, After(c, run').now)
    ensures After(c, run').attempts == After(c, run).attempts
  {
    run' := run;
    if !TokenLive(After(c, run).tokens, id, After(c, run).now) {
      var t := Fresh(After(c, run).mints.Keys);
      Extend(c, run, MintInsert(t, id, 0));
      run' := run + [MintInsert(t, id, 0)];
      Extend(c, run', MintStore(t));
      run' := run' + [MintStore(t)];
    }
  }

  lemma LimitedDecides(c: Config, s: State, v: CallId)
    requires v in s.redeems && s.redeems[v].Counted? && s.redeems[v].n > MAX_REDEEM_TRIES
    ensures Enabled(c, s, RedeemDecide(v, false))
    ensures var s' := Apply(c, s, RedeemDecide(v, false));
            s'.now == s.now && s'.lost == s.lost && s.redeems[v].id !in s'.attempts && s'.redeems == s.redeems[v := Refused]
  {
  }

  /** A call that exceeds the limit of a connect id, and whose DEL works, takes the counter away. */
  lemma SpendTries(c: Config, run: seq<Step>, id: ConnectId) returns (run': seq<Step>)
    requires c.Valid() && ValidRun(c, run) && TokenLive(After(c, run).tokens, id, After(c, run).now)
    requires Incr(After(c, run).attempts, id, After(c, run).now)[id].count > MAX_REDEEM_TRIES
    ensures Aside(c, run, run') && id !in After(c, run').attempts
  {
    var v := Fresh(After(c, run).redeems.Keys);
    Extend(c, run, RedeemGet(v, id, 0));
    run' := run + [RedeemGet(v, id, 0)];
    assert After(c, run').attempts == After(c, run).attempts && After(c, run').redeems[v].Got? && After(c, run').redeems[v].id == id;
    Extend(c, run', RedeemCount(v));
    run' := run' + [RedeemCount(v)];
    LimitedDecides(c, After(c, run'), v);
    Extend(c, run', RedeemDecide(v, false));
    run' := run' + [RedeemDecide(v, false)];
  }

  /** A reader that has not counted itself yet can always be accepted: if the counter stands at the limit,
      a Mint and another call on the same connect id can take it away. */
  lemma ReaderGoesOn(c: Config, run: seq<Step>, u: CallId, sid: SessionId) returns (run': seq<Step>)
    requires c.Valid() && ValidRun(c, run) && Ready(After(c, run), u, sid) && After(c, run).redeems[u].Got?
    ensures run <= run' && ValidRun(c, run') && Accepting(After(c, run'), u, sid)
    ensures After(c, run').now == After(c, run).now && After(c, run').redeems[u].at == After(c, run).redeems[u].at
    ensures After(c, run').lost == After(c, run).lost
  {
    var id := After(c, run).redeems[u].id;
    run' := run;
    if Incr(After(c, run).attempts, id, After(c, run).now)[id].count > MAX_REDEEM_TRIES {
      run' := SomeLiveToken(c, run, id);
      run' := SpendTries(c, run', id);
    }
    Extend(c, run', RedeemCount(u));
    run' := run' + [RedeemCount(u)];
  }

  lemma AcceptableGoesOn(c: Config, run: seq<Step>, u: CallId, sid: SessionId) returns (run': seq<Step>)
    requires c.Valid() && ValidRun(c, run) && Acceptable(After(c, run), u, sid)
    ensures run <= run' && ValidRun(c, run') && Accepting(After(c, run'), u, sid) && After(c, run').now == After(c, run).now
    ensures After(c, run').redeems[u].at == if Ready(After(c, run), u, sid) then After(c, run).redeems[u].at else After(c, run).now
    ensures After(c, run').lost == After(c, run).lost
  {
    var s := After(c, run);
    run' := run;
    if !Ready(s, u, sid) {
      var id :| TokenLive(s.tokens, id, s.now) && s.tokens[id].rec.session == sid;
      Extend(c, run, RedeemGet(u, id, s.tokens[id].rec.pin));
      run' := run + [RedeemGet(u, id, s.tokens[id].rec.pin)];
    }
    if After(c, run').redeems[u].Got? {
      run' := ReaderGoesOn(c, run', u, sid);
    }
  }

  // ---------- the theorems ----------

  ghost predicate CanBeAccepted(c: Config, run: seq<Step>, u: CallId, sid: SessionId) {
    exists more :: ValidRun(c, run + more) && Accepting(After(c, run + more), u, sid)
  }

  /** Who can still be accepted for a session whose token was stored: exactly the calls that have read the
      token, with its PIN and not counted out, and, while the token is live, those that have not begun. */
  lemma WhoCanBeAccepted(c: Config, run: seq<Step>, u: CallId, sid: SessionId)
    requires c.Valid() && ValidRun(c, run) && sid in After(c, run).stored
    ensures CanBeAccepted(c, run, u, sid) <==> Acceptable(After(c, run), u, sid)
  {
    if CanBeAccepted(c, run, u, sid) {
      var more :| ValidRun(c, run + more) && Accepting(After(c, run + more), u, sid);
      WasAcceptable(c, run, more, u, sid);
    }
    if Acceptable(After(c, run), u, sid) {
      var run' := AcceptableGoesOn(c, run, u, sid);
      assert run' == run + run'[|run|..];
    }
  }

  lemma DecideLeavesReaders(c: Config, s: State, t: CallId, delFails: bool, u: CallId, sid: SessionId)
    requires Accepting(s, t, sid) && Enabled(c, s, RedeemDecide(t, delFails))
    ensures Ready(Apply(c, s, RedeemDecide(t, delFails)), u, sid) <==> u != t && Ready(s, u, sid)
    ensures u in Apply(c, s, RedeemDecide(t, delFails)).redeems <==> u in s.redeems
    ensures Apply(c, s, RedeemDecide(t, delFails)).stored == s.stored
  {
  }

  lemma DecideSpends(c: Config, s: State, t: CallId, delFails: bool, sid: SessionId)
    requires KeyInv(s.tokens, s.redeems) && Accepting(s, t, sid) && Enabled(c, s, RedeemDecide(t, delFails))
    ensures HasLiveToken(Apply(c, s, RedeemDecide(t, delFails)), sid) <==> delFails && HasLiveToken(s, sid)
  {
    var s' := Apply(c, s, RedeemDecide(t, delFails));
    if delFails {
      assert s'.tokens == s.tokens;
    }
  }

  /** Who can still be accepted once a call has been: exactly the other calls that have read the token by
      then, have its PIN, and have not counted themselves out; and, if the DEL failed and the token is
      live, any call that has not begun. */
  lemma ReusableExactlyByReaders(c: Config, run: seq<Step>, t: CallId, delFails: bool, u: CallId, sid: SessionId)
    requires c.Valid() && ValidRun(c, run) && Accepting(After(c, run), t, sid)
    ensures CanBeAccepted(c, run + [RedeemDecide(t, delFails)], u, sid) <==>
            u != t && (Ready(After(c, run), u, sid) || (delFails && u !in After(c, run).redeems && HasLiveToken(After(c, run), sid)))
  {
    var s := After(c, run);
    RunKeys(c, run);
    RunInv(c, run);
    assert s.redeems[t].Session() == Some(sid);
    Extend(c, run, RedeemDecide(t, delFails));
    DecideLeavesReaders(c, s, t, delFails, u, sid);
    DecideSpends(c, s, t, delFails, sid);
    WhoCanBeAccepted(c, run + [RedeemDecide(t, delFails)], u, sid);
  }

  lemma {:induction false} PrefixRun(c: Config, run: seq<Step>, n: nat)
    requires ValidRun(c, run) && n <= |run|
    ensures ValidRun(c, run[..n])
  {
    if n == |run| {
      assert run[..n] == run;
    } else {
      assert run[..|run| - 1][..n] == run[..n];
      PrefixRun(c, run[..|run| - 1], n);
    }
  }

  /** The i-th step of the run accepts a PIN for the session. */
  ghost predicate Accepts(c: Config, run: seq<Step>, i: nat, sid: SessionId)
    requires ValidRun(c, run) && i < |run|
  {
    run[i].RedeemDecide? && ValidRun(c, run[..i]) && Accepting(After(c, run[..i]), run[i].t, sid)
  }

  /** Single use, as far as it goes: if a token is accepted, its DEL works, and it is accepted again, then
      by another call, and that one had read the token before the first acceptance. */
  lemma AcceptedTwiceMeansOverlap(c: Config, run: seq<Step>, i: nat, j: nat, sid: SessionId)
    requires c.Valid() && ValidRun(c, run) && i < j < |run|
    requires Accepts(c, run, i, sid) && !run[i].delFails && Accepts(c, run, j, sid)
    ensures run[j].t != run[i].t && Ready(After(c, run[..i]), run[j].t, sid)
  {
    PrefixRun(c, run, j);
    assert run[..i] + [run[i]] + run[i + 1..j] == run[..j];
    assert run[i] == RedeemDecide(run[i].t, false);
    assert CanBeAccepted(c, run[..i] + [run[i]], run[j].t, sid);
    ReusableExactlyByReaders(c, run[..i], run[i].t, false, run[j].t, sid);
  }

  /** One call after another: if the second call had not begun when the first was accepted and its DEL
      worked, the second is not accepted. */
  lemma SerialCallsAreRefused(c: Config, run: seq<Step>, i: nat, j: nat, sid: SessionId)
    requires c.Valid() && ValidRun(c, run) && i < j < |run|
    requires Accepts(c, run, i, sid) && !run[i].delFails
    requires run[j].RedeemDecide? && ValidRun(c, run[..i]) && run[j].t !in After(c, run[..i]).redeems
    ensures !Accepts(c, run, j, sid)
  {
    if Accepts(c, run, j, sid) {
      AcceptedTwiceMeansOverlap(c, run, i, j, sid);
    }
  }
}
