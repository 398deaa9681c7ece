/** How many PINs can be compared with one connection token when Redeems overlap.

    The counter covers the calls that count themselves while the token is live. A call that has read the
    token before it was deleted still compares its PIN, and by then the counter has been deleted too.
 */
module Guessing {
  import opened Rooms
  import opened Redis
  import opened Session
  import opened Lifecycle
  import opened SingleUse

  /** What has happened to the token of one session since it was stored.
      `onTime`: calls that counted themselves within the limit while the token was live; `late`: those that
      did so after it was gone; `compares`: PINs compared; `leftover`: a counter of an earlier token of the
      connect id was live when it was stored; `own`: a counter was started since. */
  datatype Tally = Tally(onTime: nat, late: nat, compares: nat, leftover: bool, own: bool)

  const NO_TALLY := Tally(0, 0, 0, false, false)

  /** The session's token is live under this connect id. */
  predicate LiveAt(s: State, id: ConnectId, sid: SessionId) {
    TokenLive(s.tokens, id, s.now) && s.tokens[id].rec.session == sid
  }

  function Tell(s: State, t: Tally, step: Step, sid: SessionId): Tally {
    match step
    case MintStore(m) =>
      if m in s.mints && s.mints[m].Inserted? && s.mints[m].session == sid && !TokenLive(s.tokens, s.mints[m].id, s.now)
      then NO_TALLY.(leftover := CounterLive(s.attempts, s.mints[m].id, s.now))
      else t
    case RedeemCount(u) =>
      if u !in s.redeems || !s.redeems[u].Got? then t
      else
        var r := s.redeems[u];
        var live := LiveAt(s, r.id, sid);
        var within := r.rec.session == sid && Incremented(Find(s.attempts, r.id), s.now).count <= MAX_REDEEM_TRIES;
        t.(own := t.own || (live && !CounterLive(s.attempts, r.id, s.now)),
           onTime := t.onTime + (if within && live then 1 else 0),
           late := t.late + if within && !live then 1 else 0)
    case RedeemDecide(u, _) => if Comparing(s.redeems, u, sid) then t.(compares := t.compares + 1) else t
    case _ => t
  }

  /** The call's next step compares its PIN with the one of the session's token. */
  predicate Comparing(redeems: Redeems, u: CallId, sid: SessionId) {
    u in redeems && redeems[u].Counted? && redeems[u].rec.session == sid && redeems[u].n <= MAX_REDEEM_TRIES
  }

  ghost function TallyOf(c: Config, run: seq<Step>, sid: SessionId): Tally
    requires ValidRun(c, run)
  {
    if run == [] then NO_TALLY
    else Tell(After(c, run[..|run| - 1]), TallyOf(c, run[..|run| - 1], sid), run[|run| - 1], sid)
  }

  function Carried(t: Tally): nat {
    if t.leftover then MAX_REDEEM_TRIES - 1 else 0
  }

  // ---------- the counter covers the calls on time ----------

  ghost predicate Positive(attempts: Attempts) {
    forall id | id in attempts :: attempts[id].count >= 1
  }

  predicate Covered(c: Config, s: State, t: Tally, id: ConnectId) {
    && id in s.tokens && s.tokens[id].deadline <= s.now + c.ttl
    && if t.own then
         && CounterLive(s.attempts, id, s.now)
         && (s.attempts[id].deadline.Some? ==> s.tokens[id].deadline <= s.attempts[id].deadline.value)
         && t.onTime <= s.attempts[id].count + Carried(t)
       else
         && t.onTime <= Carried(t)
         && (CounterLive(s.attempts, id, s.now) ==> t.leftover && t.onTime < s.attempts[id].count)
  }

  ghost predicate CoverInv(c: Config, s: State, t: Tally, sid: SessionId) {
    && Positive(s.attempts)
    && t.onTime <= MAX_REDEEM_TRIES + Carried(t)
    && forall id | LiveAt(s, id, sid) :: Covered(c, s, t, id)
  }

  lemma CountCovers(c: Config, s: State, t: Tally, u: CallId, sid: SessionId)
    requires c.Valid() && CoverInv(c, s, t, sid) && Enabled(c, s, RedeemCount(u))
    requires KeyInv(s.tokens, s.redeems) && TokensInv(s.tokens, s.stored)
    ensures CoverInv(c, Apply(c, s, RedeemCount(u)), Tell(s, t, RedeemCount(u), sid), sid)
  {
    var s', t' := Apply(c, s, RedeemCount(u)), Tell(s, t, RedeemCount(u), sid);
    var r := s.redeems[u];
    forall id | LiveAt(s', id, sid)
      ensures Covered(c, s', t', id)
    {
      assert LiveAt(s, id, sid) && Covered(c, s, t, id);
      if r.rec.session == sid {
        assert id == r.id;
      }
      if id != r.id {
        CountElsewhere(c, s, t, u, id, sid);
      }
    }
  }

  /** A call on another connect id leaves the session's counter alone. */
  lemma CountElsewhere(c: Config, s: State, t: Tally, u: CallId, id: ConnectId, sid: SessionId)
    requires Enabled(c, s, RedeemCount(u)) && LiveAt(s, id, sid) && Covered(c, s, t, id) && s.redeems[u].id != id
    requires s.redeems[u].rec.session != sid && !LiveAt(s, s.redeems[u].id, sid)
    ensures Covered(c, Apply(c, s, RedeemCount(u)), Tell(s, t, RedeemCount(u), sid), id)
  {
  }

  lemma StoreCovers(c: Config, s: State, t: Tally, m: CallId, sid: SessionId)
    requires c.Valid() && CoverInv(c, s, t, sid) && Enabled(c, s, MintStore(m)) && MintsInvOf(s) && TokensInv(s.tokens, s.stored)
    ensures CoverInv(c, Apply(c, s, MintStore(m)), Tell(s, t, MintStore(m), sid), sid)
  {
    var s', t' := Apply(c, s, MintStore(m)), Tell(s, t, MintStore(m), sid);
    forall id | LiveAt(s', id, sid)
      ensures Covered(c, s', t', id)
    {
      if s.mints[m].session == sid && !TokenLive(s.tokens, s.mints[m].id, s.now) {
        assert id == s.mints[m].id;
      } else {
        assert LiveAt(s, id, sid);
      }
    }
  }

  lemma ExpireCovers(c: Config, s: State, t: Tally, u: CallId, sid: SessionId)
    requires c.Valid() && CoverInv(c, s, t, sid) && Enabled(c, s, RedeemExpire(u))
    ensures CoverInv(c, Apply(c, s, RedeemExpire(u)), t, sid)
  {
    var s' := Apply(c, s, RedeemExpire(u));
    forall id | LiveAt(s', id, sid)
      ensures Covered(c, s', t, id)
    {
      assert LiveAt(s, id, sid) && Covered(c, s, t, id);
    }
  }

  /** A decision deletes both keys or none. */
  lemma DecideDeletes(c: Config, s: State, u: CallId, delFails: bool)
    requires Enabled(c, s, RedeemDecide(u, delFails))
    ensures var s', id := DoRedeemDecide(s, u, delFails), s.redeems[u].id;
            && s'.now == s.now
            && ((s'.tokens == s.tokens && s'.attempts == s.attempts) || (s'.tokens == s.tokens - {id} && s'.attempts == s.attempts - {id}))
  {
  }

  lemma FewerKeysCover(c: Config, s: State, s': State, t: Tally, t': Tally, sid: SessionId)
    requires CoverInv(c, s, t, sid) && s'.now == s.now && t' == t.(compares := t'.compares)
    requires forall id | id in s'.attempts :: id in s.attempts && s'.attempts[id] == s.attempts[id]
    requires forall id | id in s'.tokens ::
               id in s.tokens && s'.tokens[id] == s.tokens[id] && Find(s'.attempts, id) == Find(s.attempts, id)
    ensures CoverInv(c, s', t', sid)
  {
    forall id | LiveAt(s', id, sid)
      ensures Covered(c, s', t', id)
    {
      assert LiveAt(s, id, sid) && Covered(c, s, t, id);
      assert Find(s'.attempts, id) == Find(s.attempts, id);
    }
  }

  lemma DecideCovers(c: Config, s: State, t: Tally, u: CallId, delFails: bool, sid: SessionId)
    requires c.Valid() && CoverInv(c, s, t, sid) && Enabled(c, s, RedeemDecide(u, delFails))
    ensures CoverInv(c, Apply(c, s, RedeemDecide(u, delFails)), Tell(s, t, RedeemDecide(u, delFails), sid), sid)
  {
    DecideDeletes(c, s, u, delFails);
    FewerKeysCover(c, s, DoRedeemDecide(s, u, delFails), t, Tell(s, t, RedeemDecide(u, delFails), sid), sid);
  }

  lemma TickCovers(c: Config, s: State, t: Tally, d: Time, sid: SessionId)
    requires c.Valid() && CoverInv(c, s, t, sid) && Enabled(c, s, Tick(d))
    ensures CoverInv(c, Apply(c, s, Tick(d)), t, sid)
  {
    forall id | LiveAt(Apply(c, s, Tick(d)), id, sid)
      ensures Covered(c, Apply(c, s, Tick(d)), t, id)
    {
      assert LiveAt(s, id, sid) && Covered(c, s, t, id);
    }
  }

  predicate TouchesKeys(step: Step) {
    step.Tick? || step.MintStore? || step.RedeemCount? || step.RedeemExpire? || step.RedeemDecide?
  }

  lemma KeysAndClockStay(c: Config, s: State, step: Step)
    requires Enabled(c, s, step) && !TouchesKeys(step)
    ensures var s' := Apply(c, s, step); s'.now == s.now && s'.tokens == s.tokens && s'.attempts == s.attempts
  {
    match step {
      case MintInsert(_, _, _) =>
      case MintRollback(_, _) =>
      case MintGrant(_) =>
      case RedeemGet(_, _, _) =>
      case RedeemUpdate(_) =>
      case RedeemGrant(_) =>
      case Sweep(_) =>
      case Admit(_, _) =>
      case Enter(_) =>
      case Exit(_, _) =>
      case Callback(_, _) =>
    }
  }

  lemma SameKeysCover(c: Config, s: State, s': State, t: Tally, sid: SessionId)
    requires CoverInv(c, s, t, sid) && s'.now == s.now && s'.tokens == s.tokens && s'.attempts == s.attempts
    ensures CoverInv(c, s', t, sid)
  {
    forall id | LiveAt(s', id, sid)
      ensures Covered(c, s', t, id)
    {
      assert LiveAt(s, id, sid) && Covered(c, s, t, id);
    }
  }

  lemma CoverStep(c: Config, s: State, t: Tally, step: Step, sid: SessionId)
    requires c.Valid() && CoverInv(c, s, t, sid) && Enabled(c, s, step)
    requires KeyInv(s.tokens, s.redeems) && MintsInvOf(s) && TokensInv(s.tokens, s.stored)
    ensures CoverInv(c, Apply(c, s, step), Tell(s, t, step, sid), sid)
  {
    if step.Tick? {
      TickCovers(c, s, t, step.d, sid);
    } else if step.MintStore? {
      StoreCovers(c, s, t, step.t, sid);
    } else if step.RedeemCount? {
      CountCovers(c, s, t, step.t, sid);
    } else if step.RedeemExpire? {
      ExpireCovers(c, s, t, step.t, sid);
    } else if step.RedeemDecide? {
      DecideCovers(c, s, t, step.t, step.delFails, sid);
    } else {
      KeysAndClockStay(c, s, step);
      SameKeysCover(c, s, Apply(c, s, step), t, sid);
    }
  }

  lemma {:induction false} RunCovers(c: Config, run: seq<Step>, sid: SessionId)
    requires c.Valid() && ValidRun(c, run)
    ensures CoverInv(c, After(c, run), TallyOf(c, run, sid), sid)
  {
    if run != [] {
      var before := run[..|run| - 1];
      RunCovers(c, before, sid);
      RunKeys(c, before);
      RunInv(c, before);
      CoverStep(c, After(c, before), TallyOf(c, before, sid), run[|run| - 1], sid);
    }
  }

  // ---------- every comparison was counted ----------

  function Pending(redeems: Redeems, sid: SessionId): set<CallId> {
    set u | u in redeems && Comparing(redeems, u, sid)
  }

  predicate Balanced(redeems: Redeems, t: Tally, sid: SessionId) {
    t.compares + |Pending(redeems, sid)| == t.onTime + t.late
  }

  lemma PendingOthers(redeems: Redeems, u: CallId, r: RedeemPc, sid: SessionId)
    ensures Pending(redeems[u := r], sid) - {u} == Pending(redeems, sid) - {u}
  {
    forall v | v != u ensures v in Pending(redeems[u := r], sid) <==> v in Pending(redeems, sid) {}
  }

  lemma PendingSize(redeems: Redeems, u: CallId, sid: SessionId)
    ensures |Pending(redeems, sid)| == |Pending(redeems, sid) - {u}| + if Comparing(redeems, u, sid) then 1 else 0
  {
    if Comparing(redeems, u, sid) {
      assert Pending(redeems, sid) == (Pending(redeems, sid) - {u}) + {u};
    } else {
      assert Pending(redeems, sid) == Pending(redeems, sid) - {u};
    }
  }

  lemma PendingMoves(redeems: Redeems, u: CallId, r: RedeemPc, sid: SessionId)
    ensures var redeems' := redeems[u := r];
            |Pending(redeems', sid)| == |Pending(redeems, sid)|
              - (if Comparing(redeems, u, sid) then 1 else 0) + if Comparing(redeems', u, sid) then 1 else 0
  {
    PendingOthers(redeems, u, r, sid);
    PendingSize(redeems, u, sid);
    PendingSize(redeems[u := r], u, sid);
  }

  lemma CountBalances(c: Config, s: State, t: Tally, u: CallId, sid: SessionId)
    requires Balanced(s.redeems, t, sid) && Enabled(c, s, RedeemCount(u))
    ensures Balanced(Apply(c, s, RedeemCount(u)).redeems, Tell(s, t, RedeemCount(u), sid), sid)
  {
    var redeems' := Apply(c, s, RedeemCount(u)).redeems;
    PendingMoves(s.redeems, u, redeems'[u], sid);
  }

  lemma DecideBalances(c: Config, s: State, t: Tally, u: CallId, delFails: bool, sid: SessionId)
    requires Balanced(s.redeems, t, sid) && Enabled(c, s, RedeemDecide(u, delFails))
    ensures Balanced(Apply(c, s, RedeemDecide(u, delFails)).redeems, Tell(s, t, RedeemDecide(u, delFails), sid), sid)
  {
    var redeems' := Apply(c, s, RedeemDecide(u, delFails)).redeems;
    assert redeems' == s.redeems[u := redeems'[u]];
    PendingMoves(s.redeems, u, redeems'[u], sid);
  }

  lemma StoreBalances(c: Config, s: State, t: Tally, m: CallId, sid: SessionId)
    requires Balanced(s.redeems, t, sid) && Enabled(c, s, MintStore(m)) && MintsInvOf(s) && RedeemsInv(s.redeems, s.stored)
    ensures Balanced(Apply(c, s, MintStore(m)).redeems, Tell(s, t, MintStore(m), sid), sid)
  {
    if s.mints[m].session == sid {
      forall u | u in s.redeems ensures s.redeems[u].Session() != Some(sid) {}
      assert Pending(s.redeems, sid) == {};
    }
  }

  lemma OtherRedeemBalances(c: Config, s: State, t: Tally, step: Step, sid: SessionId)
    requires Balanced(s.redeems, t, sid) && Enabled(c, s, step) && (step.RedeemGet? || step.RedeemUpdate? || step.RedeemGrant?)
    ensures Balanced(Apply(c, s, step).redeems, t, sid)
  {
    OneRedeemMoves(c, s, step);
    PendingMoves(s.redeems, step.t, Apply(c, s, step).redeems[step.t], sid);
  }

  lemma BalanceStep(c: Config, s: State, t: Tally, step: Step, sid: SessionId)
    requires Balanced(s.redeems, t, sid) && Enabled(c, s, step) && MintsInvOf(s) && RedeemsInv(s.redeems, s.stored)
    ensures Balanced(Apply(c, s, step).redeems, Tell(s, t, step, sid), sid)
  {
    if step.MintStore? {
      StoreBalances(c, s, t, step.t, sid);
    } else if step.RedeemCount? {
      CountBalances(c, s, t, step.t, sid);
    } else if step.RedeemDecide? {
      DecideBalances(c, s, t, step.t, step.delFails, sid);
    } else if MovesRedeem(step) {
      OtherRedeemBalances(c, s, t, step, sid);
    } else {
      OneRedeemMoves(c, s, step);
    }
  }

  lemma {:induction false} RunBalances(c: Config, run: seq<Step>, sid: SessionId)
    requires c.Valid() && ValidRun(c, run)
    ensures Balanced(After(c, run).redeems, TallyOf(c, run, sid), sid)
  {
    if run == [] {
      assert Pending(map[], sid) == {};
    } else {
      var before := run[..|run| - 1];
      RunBalances(c, before, sid);
      RunInv(c, before);
      BalanceStep(c, After(c, before), TallyOf(c, before, sid), run[|run| - 1], sid);
    }
  }

  // ---------- the bound ----------

  /** Whatever calls overlap and whatever DELs fail: with one token at most 5 PINs are compared, 9 if a
      counter of an earlier token was live when it was stored, and one more for each call that counts
      itself within the limit after the token has gone. */
  lemma ComparisonsAreCovered(c: Config, run: seq<Step>, sid: SessionId)
    requires c.Valid() && ValidRun(c, run)
    ensures var t := TallyOf(c, run, sid);
            && t.compares <= t.onTime + t.late
            && t.onTime <= if t.leftover then 9 else 5
  {
    RunCovers(c, run, sid);
    RunBalances(c, run, sid);
  }

  /** So each comparison beyond the fifth, or the ninth, is owed to a call that had read the token before
      it went and counted itself after. */
  lemma MoreComparisonsAreLate(c: Config, run: seq<Step>, sid: SessionId)
    requires c.Valid() && ValidRun(c, run)
    ensures var t := TallyOf(c, run, sid); t.late >= t.compares - (if t.leftover then 9 else 5)
    ensures var t := TallyOf(c, run, sid); t.late == 0 && !t.leftover ==> t.compares <= MAX_REDEEM_TRIES
  {
    ComparisonsAreCovered(c, run, sid);
  }

  // ---------- no number bounds the late calls ----------

  const READER := Got(0, 8, Record(0, 7), 0.0)

  /** The calls from `first` on, up to `end`, have read the token of session 0 and hold a wrong PIN; its
      counter stands at k, and n PINs have been compared. */
  ghost predicate Guessed(c: Config, run: seq<Step>, first: nat, end: nat, n: nat, k: nat) {
    && ValidRun(c, run) && After(c, run).now == 0.0
    && (if k == 0 then 0 !in After(c, run).attempts else 0 in After(c, run).attempts && After(c, run).attempts[0] == Counter(k, None))
    && (forall u | u in After(c, run).redeems :: u < end)
    && (forall u: nat | first <= u < end :: u in After(c, run).redeems && After(c, run).redeems[u] == READER)
    && TallyOf(c, run, 0).compares == n && !TallyOf(c, run, 0).leftover
  }

  lemma TallyMore(c: Config, run: seq<Step>, step: Step, sid: SessionId)
    requires ValidRun(c, run) && Enabled(c, After(c, run), step)
    ensures ValidRun(c, run + [step]) && After(c, run + [step]) == Apply(c, After(c, run), step)
    ensures TallyOf(c, run + [step], sid) == Tell(After(c, run), TallyOf(c, run, sid), step, sid)
  {
    Extend(c, run, step);
    assert (run + [step])[..|run|] == run;
  }

  lemma TokenStored(c: Config) returns (run: seq<Step>)
    requires c.Valid()
    ensures Guessed(c, run, 0, 0, 0, 0) && After(c, run).tokens == map[0 := Entry(Record(0, 7), c.ttl)]
  {
    TallyMore(c, [], MintInsert(0, 0, 7), 0);
    run := [] + [MintInsert(0, 0, 7)];
    assert After(c, run).mints == map[0 := Inserted(0, 0, 7, 0, 0.0)];
    TallyMore(c, run, MintStore(0), 0);
    run := run + [MintStore(0)];
  }

  /** n calls read the token before any counts itself. */
  lemma {:induction false} EverybodyReads(c: Config, n: nat) returns (run: seq<Step>)
    requires c.Valid()
    ensures Guessed(c, run, 0, n, 0, 0) && After(c, run).tokens == map[0 := Entry(Record(0, 7), c.ttl)]
  {
    if n == 0 {
      run := TokenStored(c);
    } else {
      run := EverybodyReads(c, n - 1);
      TallyMore(c, run, RedeemGet(n - 1, 0, 8), 0);
      run := run + [RedeemGet(n - 1, 0, 8)];
    }
  }

  /** The next call counts itself and decides: it compares its PIN, or finds the limit exceeded, and then
      its DEL removes the counter. */
  lemma NextGuess(c: Config, run: seq<Step>, first: nat, end: nat, n: nat, k: nat) returns (run': seq<Step>)
    requires c.Valid() && first < end && k <= MAX_REDEEM_TRIES && Guessed(c, run, first, end, n, k)
    ensures if k < MAX_REDEEM_TRIES then Guessed(c, run', first + 1, end, n + 1, k + 1) else Guessed(c, run', first + 1, end, n, 0)
  {
    TallyMore(c, run, RedeemCount(first), 0);
    run' := run + [RedeemCount(first)];
    assert After(c, run').redeems[first] == Counted(0, 8, Record(0, 7), 0.0, k + 1);
    assert TallyOf(c, run', 0).compares == n && !TallyOf(c, run', 0).leftover;
    TallyMore(c, run', RedeemDecide(first, false), 0);
    run' := run' + [RedeemDecide(first, false)];
  }

  /** At least n comparisons, by calls all of which read the token while it was live, with no left-over
      counter and no time passing at all. */
  lemma {:induction false} Guesses(c: Config, run: seq<Step>, first: nat, end: nat, n: nat, k: nat, more: nat) returns (run': seq<Step>)
    requires c.Valid() && k <= MAX_REDEEM_TRIES && Guessed(c, run, first, end, n, k) && first + 2 * more <= end
    ensures ValidRun(c, run') && After(c, run').now == 0.0 && !TallyOf(c, run', 0).leftover
    ensures TallyOf(c, run', 0).compares >= n + more
    decreases more
  {
    run' := run;
    if more > 0 {
      var i, m, j := first, n, k;
      if j == MAX_REDEEM_TRIES {
        run' := NextGuess(c, run', i, end, m, j);
        i, j := i + 1, 0;
      }
      run' := NextGuess(c, run', i, end, m, j);
      run' := Guesses(c, run', i + 1, end, m + 1, j + 1, more - 1);
    }
  }

  ghost predicate AtMost(c: Config, run: seq<Step>, bound: nat)
    requires ValidRun(c, run)
  {
    !TallyOf(c, run, 0).leftover && After(c, run).now == 0.0 ==> TallyOf(c, run, 0).compares <= bound
  }

  /** No number bounds the comparisons with one token when calls overlap, not even with no left-over
      counter and no time passing. */
  lemma OverlappingGuessesAreUnbounded(c: Config, bound: nat)
    requires c.Valid()
    ensures exists run :: ValidRun(c, run) && !AtMost(c, run, bound)
  {
    var run := EverybodyReads(c, 2 * (bound + 1));
    run := Guesses(c, run, 0, 2 * (bound + 1), 0, 0, bound + 1);
    assert !AtMost(c, run, bound);
  }
}
