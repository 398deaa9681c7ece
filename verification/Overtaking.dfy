/** Two runs that show where the session life cycle is exact: the sweeper overtakes a Redeem as soon
    as the delays may exceed the token's lifetime, and overlapping Redeems can both succeed.
 */
module Overtaking {
  import opened Rooms
  import opened Session
  import opened Lifecycle

  /** A session minted at time zero, its token stored after `d`, and `g` more gone by. */
  function Stage(c: Config, d: Time, g: Time, redeems: Redeems, attempts: Attempts): State {
    State(d + g, 1, map[0 := Row(Pending, 0.0, None, None)], map[0 := Entry(Record(0, 7), d + c.ttl)], attempts,
          map[0 := Stored(0)], redeems, {}, map[], {0}, {}, {}, {}, {})
  }

  lemma MintSlowly(c: Config, d: Time, g: Time) returns (run: seq<Step>)
    requires c.Valid() && 0.0 <= d <= c.mintDelay && g >= 0.0
    ensures ValidRun(c, run) && After(c, run) == Stage(c, d, g, map[], map[])
  {
    run := [];
    Extend(c, run, MintInsert(0, 0, 7));
    run := run + [MintInsert(0, 0, 7)];
    assert After(c, run) == State(0.0, 1, map[0 := Row(Pending, 0.0, None, None)], map[], map[],
                                  map[0 := Inserted(0, 0, 7, 0, 0.0)], map[], {}, map[], {}, {}, {}, {}, {});
    Extend(c, run, Tick(d));
    run := run + [Tick(d)];
    Extend(c, run, MintStore(0));
    run := run + [MintStore(0)];
    assert After(c, run) == Stage(c, d, 0.0, map[], map[]);
    Extend(c, run, Tick(g));
    run := run + [Tick(g)];
  }

  /** Redeem number t, up to and including its GET and INCR. */
  lemma GetAndCount(c: Config, run: seq<Step>, t: CallId, d: Time, g: Time, redeems: Redeems, attempts: Attempts)
    returns (run': seq<Step>)
    requires c.Valid() && ValidRun(c, run) && After(c, run) == Stage(c, d, g, redeems, attempts)
    requires t !in redeems && 0.0 <= g < c.ttl && CounterLive(attempts, 0, d + g) == (0 in attempts)
    ensures ValidRun(c, run')
    ensures var a := Incr(attempts, 0, d + g);
            After(c, run') == Stage(c, d, g, redeems[t := Counted(0, 7, Record(0, 7), d + g, a[0].count)], a)
  {
    Extend(c, run, RedeemGet(t, 0, 7));
    run' := run + [RedeemGet(t, 0, 7)];
    assert After(c, run') == Stage(c, d, g, redeems[t := Got(0, 7, Record(0, 7), d + g)], attempts);
    Extend(c, run', RedeemCount(t));
    run' := run' + [RedeemCount(t)];
  }

  const FRESH_ROW := Row(Pending, 0.0, None, None)

  /** The PIN is accepted at time `at`; the UPDATE comes as late as it may. */
  lemma DecideAndDawdle(c: Config, run: seq<Step>, at: Time) returns (run': seq<Step>)
    requires c.Valid() && ValidRun(c, run)
    requires var s := After(c, run);
             s.now == at && s.rows == map[0 := FRESH_ROW] && s.redeems == map[0 := Counted(0, 7, Record(0, 7), at, 1)]
    ensures ValidRun(c, run')
    ensures var s := After(c, run');
            s.now == at + c.redeemDelay && s.rows == map[0 := FRESH_ROW] && s.redeems == map[0 := Taken(0, at)]
  {
    Extend(c, run, RedeemDecide(0, false));
    run' := run + [RedeemDecide(0, false)];
    Extend(c, run', Tick(c.redeemDelay));
    run' := run' + [Tick(c.redeemDelay)];
  }

  lemma SweepFirst(c: Config, run: seq<Step>, at: Time) returns (run': seq<Step>)
    requires c.Valid() && ValidRun(c, run)
    requires var s := After(c, run);
             s.now == at + c.redeemDelay && s.rows == map[0 := FRESH_ROW] && s.redeems == map[0 := Taken(0, at)]
    requires at + c.redeemDelay > 2.0 * c.ttl
    ensures ValidRun(c, run')
    ensures var s := After(c, run');
            s.now == at + c.redeemDelay && s.rows == map[0 := FRESH_ROW.(status := Expired)] && s.redeems == map[0 := Taken(0, at)]
  {
    var now := After(c, run).now;
    Extend(c, run, Sweep(now));
    run' := run + [Sweep(now)];
    SweepOne(now - 2.0 * c.ttl);
  }

  lemma SweepOne(cutoff: Time)
    requires cutoff > 0.0
    ensures ExpireStale(map[0 := FRESH_ROW], cutoff) == map[0 := FRESH_ROW.(status := Expired)]
  {
    assert 0 in Stale(map[0 := FRESH_ROW], cutoff);
  }

  /** The sweeper comes first, and the Redeem goes on regardless. */
  lemma SweepAndJoin(c: Config, run: seq<Step>, at: Time) returns (run': seq<Step>)
    requires c.Valid() && ValidRun(c, run)
    requires var s := After(c, run);
             s.now == at + c.redeemDelay && s.rows == map[0 := FRESH_ROW] && s.redeems == map[0 := Taken(0, at)]
    requires at + c.redeemDelay > 2.0 * c.ttl
    ensures ValidRun(c, run')
    ensures After(c, run').redeems == map[0 := Joined(0)] && !Opened(After(c, run').rows, 0)
  {
    run' := SweepFirst(c, run, at);
    Extend(c, run', RedeemUpdate(0));
    run' := run' + [RedeemUpdate(0)];
    assert After(c, run').rows == map[0 := FRESH_ROW.(status := Expired)];
    Extend(c, run', RedeemGrant(0));
    run' := run' + [RedeemGrant(0)];
  }

  /** If the delays may add up to more than the token's lifetime, some Redeem returns a JoinInfo for a
      session the sweeper has expired and nobody has activated. */
  lemma SweepCanOvertake(c: Config)
    requires c.Valid() && c.mintDelay + c.redeemDelay > c.ttl
    ensures exists run :: ValidRun(c, run) && 0 in After(c, run).redeems && After(c, run).redeems[0].Joined?
                          && !Opened(After(c, run).rows, After(c, run).redeems[0].session)
  {
    var slack := c.mintDelay + c.redeemDelay - c.ttl;
    var d, g := c.mintDelay, c.ttl - (if slack < c.ttl then slack else c.ttl) / 2.0;
    var run := MintSlowly(c, d, g);
    run := GetAndCount(c, run, 0, d, g, map[], map[]);
    run := DecideAndDawdle(c, run, d + g);
    run := SweepAndJoin(c, run, d + g);
  }

  ghost predicate NeverOvertaken(c: Config) {
    forall run, t | ValidRun(c, run) && t in After(c, run).redeems && After(c, run).redeems[t].Joined? ::
      Opened(After(c, run).rows, After(c, run).redeems[t].session)
  }

  /** The sweep never overtakes a Redeem exactly when the two delays fit into the token's lifetime. */
  lemma SweepIsSafeExactly(c: Config)
    requires c.Valid()
    ensures NeverOvertaken(c) <==> c.mintDelay + c.redeemDelay <= c.ttl
  {
    if c.mintDelay + c.redeemDelay <= c.ttl {
      forall run, t | ValidRun(c, run) && t in After(c, run).redeems && After(c, run).redeems[t].Joined?
        ensures Opened(After(c, run).rows, After(c, run).redeems[t].session)
      {
        JoinInfoNamesActivated(c, run, t);
      }
    } else {
      SweepCanOvertake(c);
    }
  }

  /** Redeem t, from its decision to its JoinInfo. */
  lemma Finish(c: Config, run: seq<Step>, t: CallId) returns (run': seq<Step>)
    requires c.Valid() && ValidRun(c, run) && t in After(c, run).redeems
    requires var s := After(c, run); exists n: nat :: n <= MAX_REDEEM_TRIES && s.redeems[t] == Counted(0, 7, Record(0, 7), s.now, n)
    ensures ValidRun(c, run') && After(c, run').now == After(c, run).now
    ensures After(c, run').redeems == After(c, run).redeems[t := Joined(0)]
  {
    Extend(c, run, RedeemDecide(t, false));
    run' := run + [RedeemDecide(t, false)];
    Extend(c, run', RedeemUpdate(t));
    run' := run' + [RedeemUpdate(t)];
    Extend(c, run', RedeemGrant(t));
    run' := run' + [RedeemGrant(t)];
  }

  /** A token is consumed once only if Redeems do not overlap: two that both read it before either
      deletes it both return a JoinInfo. */
  lemma OverlappingRedeemsBothJoin(c: Config)
    requires c.Valid()
    ensures exists run :: ValidRun(c, run) && 0 in After(c, run).redeems && 1 in After(c, run).redeems
                          && After(c, run).redeems[0] == Joined(0) && After(c, run).redeems[1] == Joined(0)
  {
    var run := MintSlowly(c, 0.0, 0.0);
    run := GetAndCount(c, run, 0, 0.0, 0.0, map[], map[]);
    var a := Incr(map[], 0, 0.0);
    run := GetAndCount(c, run, 1, 0.0, 0.0, map[0 := Counted(0, 7, Record(0, 7), 0.0, 1)], a);
    run := Finish(c, run, 0);
    run := Finish(c, run, 1);
  }

  // ---------- an ended room is joined again ----------

  /** A session minted and redeemed at once, and an agent's join token for it. */
  predicate Room(s: State, status: Status, peers: Peers, g: Grant) {
    && 0 in s.rows && s.rows[0].status == status && s.peers == peers && s.lost == {}
    && g in s.grants && g.room == 0 && g.role == Agent && s.now < g.expires
  }

  lemma Redeemed(c: Config) returns (run: seq<Step>)
    requires c.Valid()
    ensures ValidRun(c, run)
    ensures var s := After(c, run);
            && 0 in s.rows && s.rows[0].status.Active? && s.peers == map[] && s.lost == {} && s.mints == map[0 := Stored(0)]
  {
    run := MintSlowly(c, 0.0, 0.0);
    run := GetAndCount(c, run, 0, 0.0, 0.0, map[], map[]);
    Extend(c, run, RedeemDecide(0, false));
    run := run + [RedeemDecide(0, false)];
    assert After(c, run).redeems[0] == Taken(0, 0.0);
    Extend(c, run, RedeemUpdate(0));
    run := run + [RedeemUpdate(0)];
  }

  lemma Granted(c: Config, before: seq<Step>) returns (run: seq<Step>, g: Grant)
    requires c.Valid() && ValidRun(c, before)
    requires var s := After(c, before);
             0 in s.rows && s.rows[0].status.Active? && s.peers == map[] && s.lost == {} && s.mints == map[0 := Stored(0)]
    ensures ValidRun(c, run) && Room(After(c, run), Active, map[], g)
  {
    PatienceSuffices(After(c, before).now, c.signalingTtl);
    var d := Patience(After(c, before).now, c.signalingTtl);
    Extend(c, before, Tick(d));
    run := before + [Tick(d)];
    g := Grant(0, Agent, Seconds(After(c, run).now + c.signalingTtl));
    Extend(c, run, MintGrant(0));
    run := run + [MintGrant(0)];
  }

  /** The agent with this number presents its join token and is counted in. */
  lemma Enters(c: Config, before: seq<Step>, p: PeerId, status: Status, peers: Peers, g: Grant) returns (run: seq<Step>)
    requires c.Valid() && ValidRun(c, before) && Room(After(c, before), status, peers, g) && p !in peers
    ensures ValidRun(c, run) && Room(After(c, run), status, peers[p := Peer(0, Agent, Inside)], g)
  {
    Extend(c, before, Admit(p, g));
    run := before + [Admit(p, g)];
    assert Room(After(c, run), status, peers[p := Peer(0, Agent, Admitted)], g);
    Extend(c, run, Enter(p));
    run := run + [Enter(p)];
  }

  lemma LeavesAlone(c: Config, before: seq<Step>, p: PeerId, g: Grant) returns (run: seq<Step>)
    requires c.Valid() && ValidRun(c, before) && Room(After(c, before), Active, map[p := Peer(0, Agent, Inside)], g)
    ensures ValidRun(c, run) && Room(After(c, run), Ended, map[p := Peer(0, Agent, Outside)], g)
  {
    Extend(c, before, Exit(p, Done));
    run := before + [Exit(p, Done)];
    assert Room(After(c, run), Active, map[p := Peer(0, Agent, Calling)], g);
    Extend(c, run, Callback(p, false));
    run := run + [Callback(p, false)];
  }

  /** A join token outlives its session: a room whose session has ended can be joined with it again. */
  lemma EndedRoomCanBeJoined(c: Config)
    requires c.Valid()
    ensures exists run :: ValidRun(c, run) && 0 in After(c, run).rows && After(c, run).rows[0].status.Ended? && Occupied(After(c, run).peers, 0)
  {
    var run := Redeemed(c);
    var g;
    run, g := Granted(c, run);
    run := Enters(c, run, 1, Active, map[], g);
    run := LeavesAlone(c, run, 1, g);
    run := Enters(c, run, 2, Ended, map[1 := Peer(0, Agent, Outside)], g);
    assert After(c, run).peers[2].pc.Inside?;
  }
}
