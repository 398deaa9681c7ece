/** The life of sessions under concurrency: any number of Mint and Redeem calls cut at every store
    statement, the sweeper, the join-token check at the WebSocket endpoint, and the room-ended
    callback, interleaved in any way with the passing of time.

    A call that is never continued is a crashed one. Rooms are seen through presence only: a peer
    enters at its presence Join, and its presence Leave reports the room empty exactly when nobody
    else is inside (Roster.CountOutSignalsEmptied).
 */
module Lifecycle {
  import opened Rooms
  import opened Session

  type CallId = nat

  /** `mintDelay` bounds the time from a Mint's INSERT to its SET NX, `redeemDelay` the time from a
      Redeem's GET to its UPDATE. */
  datatype Config = Config(ttl: Time, signalingTtl: Time, mintDelay: Time, redeemDelay: Time) {
    predicate Valid() {
      ttl > 0.0 && signalingTtl > 0.0 && mintDelay >= 0.0 && redeemDelay >= 0.0
    }
  }

  datatype MintPc =
    | Inserted(tries: nat, id: ConnectId, pin: Pin, session: SessionId, at: Time)
    | Collided(tries: nat, session: SessionId) // SET NX refused, DELETE to come
    | Retry(tries: nat)
    | Stored(session: SessionId)
    | Granted(session: SessionId)
  {
    /** The row of this session is known to nobody but the Mint. */
    predicate Private() {
      Inserted? || Collided?
    }
  }

  datatype RedeemPc =
    | Got(id: ConnectId, pin: Pin, rec: Record, at: Time)
    | Counted(id: ConnectId, pin: Pin, rec: Record, at: Time, n: nat)
    | Taken(session: SessionId, at: Time)      // PIN accepted, token deleted, UPDATE to come
    | Updated(session: SessionId)
    | Joined(session: SessionId)               // JoinInfo returned
    | Refused
  {
    /** The session a Redeem deals with. */
    function Session(): Option<SessionId> {
      match this
      case Got(_, _, rec, _) => Some(rec.session)
      case Counted(_, _, rec, _, _) => Some(rec.session)
      case Taken(sid, _) => Some(sid)
      case Updated(sid) => Some(sid)
      case Joined(sid) => Some(sid)
      case Refused => None
    }
  }

  /** A signed join token; signatures are ideal, so only granted tokens pass the check. */
  datatype Grant = Grant(room: RoomId, role: Role, expires: Time)

  datatype PeerPc = Admitted | Inside | Calling | Outside

  datatype Peer = Peer(room: RoomId, role: Role, pc: PeerPc)

  type Mints = map<CallId, MintPc>
  type Redeems = map<CallId, RedeemPc>
  type Peers = map<PeerId, Peer>

  /** History: `stored` are the sessions whose token was stored once; `left` the rooms some peer has
      left since their session was activated; `emptied` the rooms some Leave has found empty; `lost` the
      rooms of which a Leave was not applied; `missed` the rooms that were emptied since their session was
      activated without a call of the callback, or with one that met a store error. */
  datatype State = State(
    now: Time, nextSession: SessionId,
    rows: Rows, tokens: Tokens, attempts: Attempts,
    mints: Mints, redeems: Redeems, grants: set<Grant>, peers: Peers,
    stored: set<SessionId>, left: set<SessionId>, emptied: set<SessionId>,
    lost: set<SessionId>, missed: set<SessionId>)

  const START := State(0.0, 0, map[], map[], map[], map[], map[], {}, map[], {}, {}, {}, {}, {})

  datatype Step =
    | Tick(d: Time)
    | MintInsert(t: CallId, id: ConnectId, pin: Pin)
    | MintStore(t: CallId)
    | MintRollback(t: CallId, fails: bool)
    | MintGrant(t: CallId)
    | RedeemGet(t: CallId, id: ConnectId, pin: Pin)
    | RedeemCount(t: CallId)
    | RedeemExpire(t: CallId)
    | RedeemDecide(t: CallId, delFails: bool)
    | RedeemUpdate(t: CallId)
    | RedeemGrant(t: CallId)
    | Sweep(startedAt: Time)
    | Admit(p: PeerId, grant: Grant)
    | Enter(p: PeerId)
    | Exit(p: PeerId, out: Outcome)
    | Callback(p: PeerId, fails: bool)

  predicate PeerAt(s: State, p: PeerId, pc: PeerPc) {
    p in s.peers && s.peers[p].pc == pc
  }

  predicate Enabled(c: Config, s: State, step: Step) {
    match step
    case Tick(d) => d >= 0.0
    case MintInsert(t, _, _) => t !in s.mints || (s.mints[t].Retry? && s.mints[t].tries < MINT_TRIES)
    case MintStore(t) => t in s.mints && s.mints[t].Inserted? && s.now - s.mints[t].at <= c.mintDelay
    case MintRollback(t, _) => t in s.mints && s.mints[t].Collided?
    case MintGrant(t) => t in s.mints && s.mints[t].Stored?
    case RedeemGet(t, id, _) => t !in s.redeems && TokenLive(s.tokens, id, s.now)
    case RedeemCount(t) => t in s.redeems && s.redeems[t].Got?
    case RedeemExpire(t) => t in s.redeems && s.redeems[t].Counted? && s.redeems[t].n == 1
    case RedeemDecide(t, _) => t in s.redeems && s.redeems[t].Counted?
    case RedeemUpdate(t) => t in s.redeems && s.redeems[t].Taken? && s.now - s.redeems[t].at <= c.redeemDelay
    case RedeemGrant(t) => t in s.redeems && s.redeems[t].Updated?
    case Sweep(startedAt) => startedAt <= s.now
    case Admit(p, g) => p !in s.peers && g in s.grants && s.now < g.expires
    case Enter(p) => PeerAt(s, p, Admitted)
    case Exit(p, _) => PeerAt(s, p, Inside)
    case Callback(p, _) => PeerAt(s, p, Calling)
  }

  ghost predicate Occupied(peers: Peers, room: RoomId) {
    exists p | p in peers :: peers[p].pc.Inside? && peers[p].room == room
  }

  predicate Alone(peers: Peers, p: PeerId)
    requires p in peers
  {
    forall q | q in peers && q != p && peers[q].pc.Inside? :: peers[q].room != peers[p].room
  }

  function DoMintInsert(s: State, t: CallId, id: ConnectId, pin: Pin): State {
    var tries := if t in s.mints && s.mints[t].Retry? then s.mints[t].tries else 0;
    s.(nextSession := s.nextSession + 1,
       rows := InsertRow(s.rows, s.nextSession, s.now),
       mints := s.mints[t := Inserted(tries, id, pin, s.nextSession, s.now)])
  }

  function DoMintStore(c: Config, s: State, t: CallId): State
    requires t in s.mints && s.mints[t].Inserted?
  {
    var m := s.mints[t];
    if TokenLive(s.tokens, m.id, s.now) then s.(mints := s.mints[t := Collided(m.tries, m.session)])
    else s.(tokens := SetNX(s.tokens, m.id, Record(m.session, m.pin), s.now, c.ttl),
            mints := s.mints[t := Stored(m.session)],
            stored := s.stored + {m.session})
  }

  function DoMintRollback(s: State, t: CallId, fails: bool): State
    requires t in s.mints && s.mints[t].Collided?
  {
    s.(rows := if fails then s.rows else s.rows - {s.mints[t].session}, mints := s.mints[t := Retry(s.mints[t].tries + 1)])
  }

  /** Over the limit, or with the right PIN, the call deletes the token and its counter. */
  function DoRedeemDecide(s: State, t: CallId, delFails: bool): State
    requires t in s.redeems && s.redeems[t].Counted?
  {
    var r := s.redeems[t];
    var accepted := r.n <= MAX_REDEEM_TRIES && r.pin == r.rec.pin;
    var deletes := !delFails && (r.n > MAX_REDEEM_TRIES || accepted);
    s.(tokens := if deletes then s.tokens - {r.id} else s.tokens,
       attempts := if deletes then s.attempts - {r.id} else s.attempts,
       redeems := s.redeems[t := if accepted then Taken(r.rec.session, r.at) else Refused])
  }

  function DoRedeemUpdate(s: State, t: CallId): State
    requires t in s.redeems && s.redeems[t].Taken?
  {
    var sid := s.redeems[t].session;
    var activates := sid in s.rows && s.rows[sid].status.Pending?;
    s.(rows := Activate(s.rows, sid, s.now),
       redeems := s.redeems[t := Updated(sid)],
       left := if activates then s.left - {sid} else s.left,
       missed := if activates then s.missed - {sid} else s.missed)
  }

  /** The presence Leave of p reports the room empty: see Relay.CallbackFindsRoomEmpty. */
  predicate Reports(s: State, p: PeerId, out: Outcome)
    requires p in s.peers
  {
    Alone(s.peers, p) && out.Done? && s.peers[p].room !in s.lost
  }

  function DoExit(s: State, p: PeerId, out: Outcome): State
    requires p in s.peers
  {
    var room := s.peers[p].room;
    var reports := Reports(s, p, out);
    s.(peers := s.peers[p := s.peers[p].(pc := if reports then Calling else Outside)],
       left := s.left + {room},
       emptied := if reports then s.emptied + {room} else s.emptied,
       lost := if out == Failed(false) then s.lost + {room} else s.lost,
       missed := if Alone(s.peers, p) && !reports then s.missed + {room} else s.missed)
  }

  function DoCallback(s: State, p: PeerId, fails: bool): State
    requires p in s.peers
  {
    var room := s.peers[p].room;
    var called := s.(peers := s.peers[p := s.peers[p].(pc := Outside)]);
    if fails then called.(missed := s.missed + {room}) else called.(rows := MarkEnded(s.rows, room, s.now))
  }

  function Apply(c: Config, s: State, step: Step): State
    requires Enabled(c, s, step)
  {
    match step
    case Tick(d) => s.(now := s.now + d)
    case MintInsert(t, id, pin) => DoMintInsert(s, t, id, pin)
    case MintStore(t) => DoMintStore(c, s, t)
    case MintRollback(t, fails) => DoMintRollback(s, t, fails)
    case MintGrant(t) =>
      s.(mints := s.mints[t := Granted(s.mints[t].session)],
         grants := s.grants + {Grant(s.mints[t].session, Agent, Seconds(s.now + c.signalingTtl))})
    case RedeemGet(t, id, pin) => s.(redeems := s.redeems[t := Got(id, pin, s.tokens[id].rec, s.now)])
    case RedeemCount(t) =>
      var r := s.redeems[t];
      var a := Incr(s.attempts, r.id, s.now);
      s.(attempts := a, redeems := s.redeems[t := Counted(r.id, r.pin, r.rec, r.at, a[r.id].count)])
    case RedeemExpire(t) => s.(attempts := ExpireKey(s.attempts, s.redeems[t].id, s.now, c.ttl))
    case RedeemDecide(t, delFails) => DoRedeemDecide(s, t, delFails)
    case RedeemUpdate(t) => DoRedeemUpdate(s, t)
    case RedeemGrant(t) =>
      s.(redeems := s.redeems[t := Joined(s.redeems[t].session)],
         grants := s.grants + {Grant(s.redeems[t].session, Phone, Seconds(s.now + c.signalingTtl))})
    case Sweep(startedAt) => s.(rows := ExpireStale(s.rows, startedAt - 2.0 * c.ttl))
    case Admit(p, g) => s.(peers := s.peers[p := Peer(g.room, g.role, Admitted)])
    case Enter(p) => s.(peers := s.peers[p := s.peers[p].(pc := Inside)])
    case Exit(p, out) => DoExit(s, p, out)
    case Callback(p, fails) => DoCallback(s, p, fails)
  }

  ghost predicate ValidRun(c: Config, run: seq<Step>)
    decreases |run|, 0
  {
    run == [] || (ValidRun(c, run[..|run| - 1]) && Enabled(c, After(c, run[..|run| - 1]), run[|run| - 1]))
  }

  ghost function After(c: Config, run: seq<Step>): State
    requires ValidRun(c, run)
    decreases |run|, 1
  {
    if run == [] then START else Apply(c, After(c, run[..|run| - 1]), run[|run| - 1])
  }

  lemma Extend(c: Config, run: seq<Step>, step: Step)
    requires ValidRun(c, run) && Enabled(c, After(c, run), step)
    ensures ValidRun(c, run + [step]) && After(c, run + [step]) == Apply(c, After(c, run), step)
  {
    assert (run + [step])[..|run|] == run;
  }

  /** How long to wait before a token signed for `ttl` is not expired at once by the rounding. */
  function Patience(now: Time, ttl: Time): Time {
    var next := (now.Floor + 1) as real;
    if now + ttl >= next then 0.0 else next - ttl - now
  }

  lemma RoundedDown(t: Time, n: int)
    requires n as real <= t
    ensures n as real <= Seconds(t)
  {
    assert n <= t.Floor;
  }

  lemma PatienceSuffices(now: Time, ttl: Time)
    requires ttl > 0.0
    ensures var d := Patience(now, ttl); d >= 0.0 && now + d < Seconds(now + d + ttl)
  {
    var next := now.Floor + 1;
    var d := Patience(now, ttl);
    assert now < next as real;
    RoundedDown(now + d + ttl, next);
  }

  // ---------- rows ----------

  predicate RowOk(now: Time, row: Row) {
    && row.createdAt <= now
    && (row.connectedAt.Some? <==> row.status.Active? || row.status.Ended?)
    && (row.endedAt.Some? <==> row.status.Ended?)
    && (row.connectedAt.Some? ==> row.createdAt <= row.connectedAt.value <= now)
    && (row.endedAt.Some? ==> row.connectedAt.value <= row.endedAt.value <= now)
  }

  /** Every row is consistent, and ids not handed out yet have none. */
  ghost predicate RowsInv(now: Time, next: SessionId, rows: Rows) {
    forall sid | sid in rows :: sid < next && RowOk(now, rows[sid])
  }

  lemma InsertRows(now: Time, next: SessionId, rows: Rows)
    requires RowsInv(now, next, rows)
    ensures RowsInv(now, next + 1, InsertRow(rows, next, now))
  {
  }

  lemma ActivateRows(now: Time, next: SessionId, rows: Rows, sid: SessionId)
    requires RowsInv(now, next, rows)
    ensures RowsInv(now, next, Activate(rows, sid, now))
  {
  }

  lemma EndRows(now: Time, next: SessionId, rows: Rows, sid: SessionId)
    requires RowsInv(now, next, rows)
    ensures RowsInv(now, next, MarkEnded(rows, sid, now))
  {
  }

  lemma SweepRows(now: Time, next: SessionId, rows: Rows, cutoff: Time)
    requires RowsInv(now, next, rows)
    ensures RowsInv(now, next, ExpireStale(rows, cutoff))
  {
  }

  lemma RowsStep(c: Config, s: State, step: Step)
    requires RowsInv(s.now, s.nextSession, s.rows) && Enabled(c, s, step)
    ensures var s' := Apply(c, s, step); RowsInv(s'.now, s'.nextSession, s'.rows)
  {
    if step.MintInsert? {
      InsertRows(s.now, s.nextSession, s.rows);
    } else if step.RedeemUpdate? {
      ActivateRows(s.now, s.nextSession, s.rows, s.redeems[step.t].session);
    } else if step.Sweep? {
      SweepRows(s.now, s.nextSession, s.rows, step.startedAt - 2.0 * c.ttl);
    } else if step.Callback? {
      EndRows(s.now, s.nextSession, s.rows, s.peers[step.p].room);
    }
  }

  /** What may happen to the row of a session in one step. */
  predicate Evolves(a: Status, b: Status) {
    a == b || (a.Pending? && b.Active?) || (a.Active? && b.Ended?) || (a.Pending? && b.Expired?)
  }

  predicate MovesRows(step: Step) {
    step.MintInsert? || step.MintRollback? || step.RedeemUpdate? || step.Sweep? || step.Callback?
  }

  lemma RowsStay(c: Config, s: State, step: Step)
    requires Enabled(c, s, step) && !MovesRows(step)
    ensures Apply(c, s, step).rows == s.rows
  {
    match step {
      case Tick(_) =>
      case MintStore(_) =>
      case MintGrant(_) =>
      case RedeemGet(_, _, _) =>
      case RedeemCount(_) =>
      case RedeemExpire(_) =>
      case RedeemDecide(_, _) =>
      case RedeemGrant(_) =>
      case Admit(_, _) =>
      case Enter(_) =>
      case Exit(_, _) =>
    }
  }

  lemma NextStays(c: Config, s: State, step: Step)
    requires Enabled(c, s, step) && !MovesRows(step)
    ensures Apply(c, s, step).nextSession == s.nextSession
  {
    match step {
      case Tick(_) =>
      case MintStore(_) =>
      case MintGrant(_) =>
      case RedeemGet(_, _, _) =>
      case RedeemCount(_) =>
      case RedeemExpire(_) =>
      case RedeemDecide(_, _) =>
      case RedeemGrant(_) =>
      case Admit(_, _) =>
      case Enter(_) =>
      case Exit(_, _) =>
    }
  }

  predicate RowEvolves(rows: Rows, next: SessionId, rows': Rows, next': SessionId, sid: SessionId) {
    && (sid in rows && sid in rows' ==> Evolves(rows[sid].status, rows'[sid].status))
    && (sid !in rows && sid < next ==> sid !in rows')
    && (sid !in rows && sid in rows' ==> rows'[sid].status.Pending?)
    && next <= next'
  }

  lemma MovedRowEvolves(c: Config, s: State, step: Step, sid: SessionId)
    requires Enabled(c, s, step) && MovesRows(step) && RowsInv(s.now, s.nextSession, s.rows)
    ensures RowEvolves(s.rows, s.nextSession, Apply(c, s, step).rows, Apply(c, s, step).nextSession, sid)
  {
  }

  /** Whatever the interleaving, a row's status only goes pending, active, ended, or pending, expired;
      a row once deleted does not come back, and a new one is pending. */
  lemma StatusStep(c: Config, s: State, step: Step, sid: SessionId)
    requires Enabled(c, s, step) && RowsInv(s.now, s.nextSession, s.rows)
    ensures RowEvolves(s.rows, s.nextSession, Apply(c, s, step).rows, Apply(c, s, step).nextSession, sid)
  {
    if MovesRows(step) {
      MovedRowEvolves(c, s, step, sid);
    } else {
      RowsStay(c, s, step);
      NextStays(c, s, step);
    }
  }

  // ---------- who knows a session ----------

  /** `keys` are the ids of the rows. A Mint keeps its session to itself until the token is stored. */
  ghost predicate MintsInv(keys: set<SessionId>, next: SessionId, mints: Mints, stored: set<SessionId>) {
    && stored <= keys
    && (forall sid | sid in keys :: sid < next)
    && (forall t | t in mints && mints[t].Private() :: mints[t].session in keys && mints[t].session !in stored)
    && (forall t, u | t in mints && u in mints && t != u && mints[t].Private() && mints[u].Private() :: mints[t].session != mints[u].session)
    && forall t | t in mints && (mints[t].Stored? || mints[t].Granted?) :: mints[t].session in stored
  }

  /** Stored tokens name distinct stored sessions. */
  ghost predicate TokensInv(tokens: Tokens, stored: set<SessionId>) {
    && (forall id | id in tokens :: tokens[id].rec.session in stored)
    && forall id, jd | id in tokens && jd in tokens && id != jd :: tokens[id].rec.session != tokens[jd].rec.session
  }

  ghost predicate RedeemsInv(redeems: Redeems, stored: set<SessionId>) {
    forall t | t in redeems && redeems[t].Session().Some? :: redeems[t].Session().value in stored
  }

  ghost predicate GrantsInv(grants: set<Grant>, stored: set<SessionId>) {
    forall g | g in grants :: g.room in stored
  }

  ghost predicate PeersInv(peers: Peers, stored: set<SessionId>) {
    forall p | p in peers :: peers[p].room in stored
  }

  ghost predicate KnownInv(s: State) {
    && MintsInv(s.rows.Keys, s.nextSession, s.mints, s.stored) && TokensInv(s.tokens, s.stored)
    && RedeemsInv(s.redeems, s.stored) && GrantsInv(s.grants, s.stored) && PeersInv(s.peers, s.stored)
  }

  lemma InsertMints(keys: set<SessionId>, next: SessionId, mints: Mints, stored: set<SessionId>, t: CallId, m: MintPc)
    requires MintsInv(keys, next, mints, stored) && m.Private() && m.session == next
    ensures MintsInv(keys + {next}, next + 1, mints[t := m], stored)
  {
  }

  /** A Mint that stays private, or moves on without its session. */
  lemma MoveMints(keys: set<SessionId>, next: SessionId, mints: Mints, stored: set<SessionId>, t: CallId, m: MintPc)
    requires MintsInv(keys, next, mints, stored) && t in mints
    requires m.Collided? ==> mints[t].Private() && m.session == mints[t].session
    requires m.Granted? ==> mints[t].Stored? && m.session == mints[t].session
    requires m.Collided? || m.Granted?
    ensures MintsInv(keys, next, mints[t := m], stored)
  {
  }

  lemma StoreMints(keys: set<SessionId>, next: SessionId, mints: Mints, stored: set<SessionId>, t: CallId, m: MintPc)
    requires MintsInv(keys, next, mints, stored) && t in mints && mints[t].Private()
    requires m.Stored? && m.session == mints[t].session
    ensures MintsInv(keys, next, mints[t := m], stored + {m.session})
  {
  }

  lemma RollbackMints(keys: set<SessionId>, next: SessionId, mints: Mints, stored: set<SessionId>, t: CallId, m: MintPc)
    requires MintsInv(keys, next, mints, stored) && t in mints && mints[t].Private() && m.Retry?
    ensures MintsInv(keys - {mints[t].session}, next, mints[t := m], stored)
    ensures MintsInv(keys, next, mints[t := m], stored)
  {
  }

  ghost predicate MintsInvOf(s: State) {
    MintsInv(s.rows.Keys, s.nextSession, s.mints, s.stored)
  }

  lemma MintsInsert(c: Config, s: State, step: Step)
    requires MintsInvOf(s) && Enabled(c, s, step) && step.MintInsert?
    ensures MintsInvOf(Apply(c, s, step))
  {
    var s' := Apply(c, s, step);
    InsertMints(s.rows.Keys, s.nextSession, s.mints, s.stored, step.t, s'.mints[step.t]);
    assert s'.rows.Keys == s.rows.Keys + {s.nextSession};
  }

  lemma MintsStore(c: Config, s: State, step: Step)
    requires MintsInvOf(s) && Enabled(c, s, step) && step.MintStore?
    ensures MintsInvOf(Apply(c, s, step))
  {
    var m := Apply(c, s, step).mints[step.t];
    if m.Collided? {
      MoveMints(s.rows.Keys, s.nextSession, s.mints, s.stored, step.t, m);
    } else {
      StoreMints(s.rows.Keys, s.nextSession, s.mints, s.stored, step.t, m);
    }
  }

  lemma MintsRollback(c: Config, s: State, step: Step)
    requires MintsInvOf(s) && Enabled(c, s, step) && step.MintRollback?
    ensures MintsInvOf(Apply(c, s, step))
  {
    var s' := Apply(c, s, step);
    RollbackMints(s.rows.Keys, s.nextSession, s.mints, s.stored, step.t, s'.mints[step.t]);
    assert s'.rows.Keys == if step.fails then s.rows.Keys else s.rows.Keys - {s.mints[step.t].session};
  }

  lemma OtherMints(c: Config, s: State, step: Step)
    requires Enabled(c, s, step) && !step.MintInsert? && !step.MintStore? && !step.MintRollback?
    ensures Apply(c, s, step).mints == if step.MintGrant? then s.mints[step.t := Granted(s.mints[step.t].session)] else s.mints
  {
    match step {
      case Tick(_) =>
      case MintGrant(_) =>
      case RedeemGet(_, _, _) =>
      case RedeemCount(_) =>
      case RedeemExpire(_) =>
      case RedeemDecide(_, _) =>
      case RedeemUpdate(_) =>
      case RedeemGrant(_) =>
      case Sweep(_) =>
      case Admit(_, _) =>
      case Enter(_) =>
      case Exit(_, _) =>
      case Callback(_, _) =>
    }
  }

  lemma StoredStay(c: Config, s: State, step: Step)
    requires Enabled(c, s, step) && !step.MintInsert? && !step.MintStore?
    ensures Apply(c, s, step).stored == s.stored && Apply(c, s, step).nextSession == s.nextSession
  {
    match step {
      case Tick(_) =>
      case MintRollback(_, _) =>
      case MintGrant(_) =>
      case RedeemGet(_, _, _) =>
      case RedeemCount(_) =>
      case RedeemExpire(_) =>
      case RedeemDecide(_, _) =>
      case RedeemUpdate(_) =>
      case RedeemGrant(_) =>
      case Sweep(_) =>
      case Admit(_, _) =>
      case Enter(_) =>
      case Exit(_, _) =>
      case Callback(_, _) =>
    }
  }

  lemma KeysStay(c: Config, s: State, step: Step)
    requires Enabled(c, s, step) && !step.MintInsert? && !step.MintRollback?
    ensures Apply(c, s, step).rows.Keys == s.rows.Keys
  {
    if !MovesRows(step) {
      RowsStay(c, s, step);
    }
  }

  lemma MintsStep(c: Config, s: State, step: Step)
    requires MintsInvOf(s) && Enabled(c, s, step)
    ensures MintsInvOf(Apply(c, s, step))
  {
    if step.MintInsert? {
      MintsInsert(c, s, step);
    } else if step.MintStore? {
      MintsStore(c, s, step);
    } else if step.MintRollback? {
      MintsRollback(c, s, step);
    } else {
      OtherMints(c, s, step);
      StoredStay(c, s, step);
      KeysStay(c, s, step);
      if step.MintGrant? {
        MoveMints(s.rows.Keys, s.nextSession, s.mints, s.stored, step.t, Granted(s.mints[step.t].session));
      }
    }
  }

  lemma StoreTokens(tokens: Tokens, stored: set<SessionId>, id: ConnectId, e: Entry)
    requires TokensInv(tokens, stored) && e.rec.session !in stored
    ensures TokensInv(tokens[id := e], stored + {e.rec.session})
  {
  }

  lemma DropToken(tokens: Tokens, stored: set<SessionId>, id: ConnectId)
    requires TokensInv(tokens, stored)
    ensures TokensInv(tokens - {id}, stored)
  {
  }

  lemma TokensStep(c: Config, s: State, step: Step)
    requires TokensInv(s.tokens, s.stored) && MintsInv(s.rows.Keys, s.nextSession, s.mints, s.stored) && Enabled(c, s, step)
    ensures var s' := Apply(c, s, step); TokensInv(s'.tokens, s'.stored)
  {
    match step {
      case MintStore(t) =>
        var m := s.mints[t];
        StoreTokens(s.tokens, s.stored, m.id, Entry(Record(m.session, m.pin), s.now + c.ttl));
      case RedeemDecide(t, _) => DropToken(s.tokens, s.stored, s.redeems[t].id);
      case _ =>
    }
  }

  lemma MoveRedeem(redeems: Redeems, stored: set<SessionId>, t: CallId, r: RedeemPc)
    requires RedeemsInv(redeems, stored) && (r.Session().Some? ==> r.Session().value in stored)
    ensures RedeemsInv(redeems[t := r], stored)
  {
  }

  predicate MovesRedeem(step: Step) {
    step.RedeemGet? || step.RedeemCount? || step.RedeemDecide? || step.RedeemUpdate? || step.RedeemGrant?
  }

  /** One step moves one Redeem, to a session it knew or whose live token it has just read. */
  lemma RedeemMoves(c: Config, s: State, step: Step)
    requires RedeemsInv(s.redeems, s.stored) && TokensInv(s.tokens, s.stored) && Enabled(c, s, step) && MovesRedeem(step)
    ensures var s' := Apply(c, s, step);
            s'.redeems == s.redeems[step.t := s'.redeems[step.t]]
            && (s'.redeems[step.t].Session().Some? ==> s'.redeems[step.t].Session().value in s.stored)
            && s'.stored == s.stored
  {
    if !step.RedeemGet? {
      assert s.redeems[step.t].Session().Some? ==> s.redeems[step.t].Session().value in s.stored;
    }
  }

  lemma RedeemsStep(c: Config, s: State, step: Step)
    requires RedeemsInv(s.redeems, s.stored) && TokensInv(s.tokens, s.stored) && Enabled(c, s, step)
    ensures RedeemsInv(Apply(c, s, step).redeems, Apply(c, s, step).stored)
  {
    if MovesRedeem(step) {
      RedeemMoves(c, s, step);
      MoveRedeem(s.redeems, s.stored, step.t, Apply(c, s, step).redeems[step.t]);
    } else {
      assert Apply(c, s, step).redeems == s.redeems && s.stored <= Apply(c, s, step).stored;
    }
  }

  lemma GrantsStep(c: Config, s: State, step: Step)
    requires GrantsInv(s.grants, s.stored) && RedeemsInv(s.redeems, s.stored) && Enabled(c, s, step)
    requires forall t | t in s.mints && s.mints[t].Stored? :: s.mints[t].session in s.stored
    ensures GrantsInv(Apply(c, s, step).grants, Apply(c, s, step).stored)
  {
    match step {
      case MintStore(t) =>
      case RedeemGrant(t) => assert s.redeems[t].Session() == Some(s.redeems[t].session);
      case _ =>
    }
  }

  predicate MovesPeer(step: Step) {
    step.Admit? || step.Enter? || step.Exit? || step.Callback?
  }

  lemma PeersStay(c: Config, s: State, step: Step)
    requires Enabled(c, s, step) && !MovesPeer(step)
    ensures Apply(c, s, step).peers == s.peers
  {
    match step {
      case Tick(_) =>
      case MintInsert(_, _, _) =>
      case MintStore(_) =>
      case MintRollback(_, _) =>
      case MintGrant(_) =>
      case RedeemGet(_, _, _) =>
      case RedeemCount(_) =>
      case RedeemExpire(_) =>
      case RedeemDecide(_, _) =>
      case RedeemUpdate(_) =>
      case RedeemGrant(_) =>
      case Sweep(_) =>
    }
  }

  lemma MovedPeer(c: Config, s: State, step: Step)
    requires Enabled(c, s, step) && MovesPeer(step)
    ensures var p, peers' := step.p, Apply(c, s, step).peers;
            && p in peers' && peers' == s.peers[p := peers'[p]]
            && if step.Admit? then step.grant in s.grants && peers'[p] == Peer(step.grant.room, step.grant.role, Admitted)
               else p in s.peers && peers'[p].room == s.peers[p].room && peers'[p].role == s.peers[p].role
  {
    match step {
      case Admit(_, _) =>
      case Enter(_) =>
      case Exit(_, _) =>
      case Callback(_, _) =>
    }
  }

  lemma StoredGrows(c: Config, s: State, step: Step)
    requires Enabled(c, s, step)
    ensures s.stored <= Apply(c, s, step).stored
  {
    if !step.MintInsert? && !step.MintStore? {
      StoredStay(c, s, step);
    }
  }

  /** A peer gets its room and role from its grant and keeps them. */
  lemma OnePeerMoves(c: Config, s: State, step: Step)
    requires Enabled(c, s, step)
    ensures !MovesPeer(step) ==> Apply(c, s, step).peers == s.peers
    ensures MovesPeer(step) ==>
              var p, peers' := step.p, Apply(c, s, step).peers;
              && p in peers' && peers' == s.peers[p := peers'[p]]
              && if step.Admit? then step.grant in s.grants && peers'[p] == Peer(step.grant.room, step.grant.role, Admitted)
                 else p in s.peers && peers'[p].room == s.peers[p].room && peers'[p].role == s.peers[p].role
    ensures s.stored <= Apply(c, s, step).stored
  {
    if MovesPeer(step) {
      MovedPeer(c, s, step);
    } else {
      PeersStay(c, s, step);
    }
    StoredGrows(c, s, step);
  }

  lemma MovePeer(peers: Peers, stored: set<SessionId>, p: PeerId, x: Peer, stored': set<SessionId>)
    requires PeersInv(peers, stored) && x.room in stored && stored <= stored'
    ensures PeersInv(peers[p := x], stored')
  {
  }

  lemma PeersStep(c: Config, s: State, step: Step)
    requires PeersInv(s.peers, s.stored) && GrantsInv(s.grants, s.stored) && Enabled(c, s, step)
    ensures PeersInv(Apply(c, s, step).peers, Apply(c, s, step).stored)
  {
    var s' := Apply(c, s, step);
    OnePeerMoves(c, s, step);
    if MovesPeer(step) {
      MovePeer(s.peers, s.stored, step.p, s'.peers[step.p], s'.stored);
    }
  }

  lemma KnownStep(c: Config, s: State, step: Step)
    requires KnownInv(s) && Enabled(c, s, step)
    ensures KnownInv(Apply(c, s, step))
  {
    MintsStep(c, s, step);
    TokensStep(c, s, step);
    RedeemsStep(c, s, step);
    GrantsStep(c, s, step);
    PeersStep(c, s, step);
  }

  // ---------- the sweeper against the redeemers ----------

  /** How old a session may be when something happens to it. */
  ghost predicate TimelyTokens(c: Config, rows: Rows, tokens: Tokens) {
    forall id | id in tokens && tokens[id].rec.session in rows ::
      tokens[id].deadline <= rows[tokens[id].rec.session].createdAt + c.mintDelay + c.ttl
  }

  ghost predicate TimelyMints(rows: Rows, mints: Mints) {
    forall t | t in mints && mints[t].Inserted? && mints[t].session in rows :: rows[mints[t].session].createdAt == mints[t].at
  }

  /** When a Redeem read its token: the first moment of its delay. */
  predicate ReadInTime(c: Config, rows: Rows, r: RedeemPc) {
    match r
    case Got(_, _, rec, at) => rec.session in rows ==> at < rows[rec.session].createdAt + c.mintDelay + c.ttl
    case Counted(_, _, rec, at, _) => rec.session in rows ==> at < rows[rec.session].createdAt + c.mintDelay + c.ttl
    case Taken(sid, at) => sid in rows ==> at < rows[sid].createdAt + c.mintDelay + c.ttl
    case _ => true
  }

  ghost predicate TimelyRedeems(c: Config, rows: Rows, redeems: Redeems) {
    forall t | t in redeems :: ReadInTime(c, rows, redeems[t])
  }

  ghost predicate TimelySweeps(c: Config, now: Time, rows: Rows) {
    forall sid | sid in rows && rows[sid].status.Expired? :: rows[sid].createdAt + 2.0 * c.ttl < now
  }

  ghost predicate TimeInv(c: Config, s: State) {
    && TimelyTokens(c, s.rows, s.tokens) && TimelyMints(s.rows, s.mints)
    && TimelyRedeems(c, s.rows, s.redeems) && TimelySweeps(c, s.now, s.rows)
  }

  /** Rows keep their creation time; only new sessions get new rows. */
  predicate SameBirth(rows: Rows, rows': Rows, next: SessionId) {
    forall sid | sid in rows' && sid < next :: sid in rows && rows'[sid].createdAt == rows[sid].createdAt
  }

  lemma MovedRowsBirth(c: Config, s: State, step: Step)
    requires Enabled(c, s, step) && MovesRows(step)
    ensures SameBirth(s.rows, Apply(c, s, step).rows, s.nextSession)
  {
  }

  lemma BirthStep(c: Config, s: State, step: Step)
    requires Enabled(c, s, step)
    ensures SameBirth(s.rows, Apply(c, s, step).rows, s.nextSession)
  {
    if MovesRows(step) {
      MovedRowsBirth(c, s, step);
    } else {
      RowsStay(c, s, step);
    }
  }

  lemma TokensBirth(c: Config, rows: Rows, rows': Rows, next: SessionId, tokens: Tokens)
    requires TimelyTokens(c, rows, tokens) && SameBirth(rows, rows', next)
    requires forall id | id in tokens :: tokens[id].rec.session < next
    ensures TimelyTokens(c, rows', tokens)
  {
  }

  ghost predicate Old(stored: set<SessionId>, next: SessionId) {
    forall sid | sid in stored :: sid < next
  }

  lemma StoreTimely(c: Config, s: State, t: CallId)
    requires TimelyTokens(c, s.rows, s.tokens) && TimelyMints(s.rows, s.mints) && Enabled(c, s, MintStore(t))
    ensures TimelyTokens(c, s.rows, Apply(c, s, MintStore(t)).tokens)
  {
  }

  lemma DecideTimely(c: Config, s: State, t: CallId, delFails: bool)
    requires TimelyTokens(c, s.rows, s.tokens) && Enabled(c, s, RedeemDecide(t, delFails))
    ensures TimelyTokens(c, s.rows, Apply(c, s, RedeemDecide(t, delFails)).tokens)
  {
  }

  lemma TokensStay(c: Config, s: State, step: Step)
    requires Enabled(c, s, step) && !step.MintStore? && !step.RedeemDecide?
    ensures Apply(c, s, step).tokens == s.tokens
  {
  }

  lemma TokensMoveTimely(c: Config, s: State, step: Step)
    requires TimelyTokens(c, s.rows, s.tokens) && TimelyMints(s.rows, s.mints) && Enabled(c, s, step)
    ensures TimelyTokens(c, s.rows, Apply(c, s, step).tokens)
  {
    if step.MintStore? {
      StoreTimely(c, s, step.t);
    } else if step.RedeemDecide? {
      DecideTimely(c, s, step.t, step.delFails);
    } else {
      TokensStay(c, s, step);
    }
  }

  lemma TokensOld(c: Config, s: State, step: Step)
    requires TokensInv(s.tokens, s.stored) && Old(s.stored, s.nextSession) && Enabled(c, s, step)
    requires forall t | t in s.mints && s.mints[t].Private() :: s.mints[t].session < s.nextSession
    ensures forall id | id in Apply(c, s, step).tokens :: Apply(c, s, step).tokens[id].rec.session < s.nextSession
  {
    match step {
      case MintStore(t) =>
      case RedeemDecide(t, delFails) =>
      case _ => assert Apply(c, s, step).tokens == s.tokens;
    }
  }

  lemma TimelyTokensStep(c: Config, s: State, step: Step)
    requires TimelyTokens(c, s.rows, s.tokens) && TimelyMints(s.rows, s.mints) && Enabled(c, s, step)
    requires TokensInv(s.tokens, s.stored) && Old(s.stored, s.nextSession)
    requires forall t | t in s.mints && s.mints[t].Private() :: s.mints[t].session < s.nextSession
    ensures TimelyTokens(c, Apply(c, s, step).rows, Apply(c, s, step).tokens)
  {
    BirthStep(c, s, step);
    TokensMoveTimely(c, s, step);
    TokensOld(c, s, step);
    TokensBirth(c, s.rows, Apply(c, s, step).rows, s.nextSession, Apply(c, s, step).tokens);
  }

  lemma TimelyMintsStep(c: Config, s: State, step: Step)
    requires TimelyMints(s.rows, s.mints) && KnownInv(s) && Enabled(c, s, step)
    ensures TimelyMints(Apply(c, s, step).rows, Apply(c, s, step).mints)
  {
    BirthStep(c, s, step);
  }

  lemma RedeemsBirth(c: Config, rows: Rows, rows': Rows, next: SessionId, redeems: Redeems)
    requires TimelyRedeems(c, rows, redeems) && SameBirth(rows, rows', next)
    requires forall t | t in redeems && redeems[t].Session().Some? :: redeems[t].Session().value < next
    ensures TimelyRedeems(c, rows', redeems)
  {
    forall t | t in redeems ensures ReadInTime(c, rows', redeems[t]) {
      assert ReadInTime(c, rows, redeems[t]);
    }
  }

  lemma MoveTimely(c: Config, rows: Rows, redeems: Redeems, t: CallId, r: RedeemPc)
    requires TimelyRedeems(c, rows, redeems) && ReadInTime(c, rows, r)
    ensures TimelyRedeems(c, rows, redeems[t := r])
  {
  }

  lemma GotInTime(c: Config, s: State, t: CallId, id: ConnectId, pin: Pin)
    requires TimelyTokens(c, s.rows, s.tokens) && Enabled(c, s, RedeemGet(t, id, pin))
    ensures ReadInTime(c, s.rows, Apply(c, s, RedeemGet(t, id, pin)).redeems[t])
  {
  }

  lemma ReadBefore(c: Config, s: State, step: Step)
    requires Enabled(c, s, step) && MovesRedeem(step) && !step.RedeemGet? && ReadInTime(c, s.rows, s.redeems[step.t])
    ensures ReadInTime(c, s.rows, Apply(c, s, step).redeems[step.t])
  {
  }

  lemma RedeemReadInTime(c: Config, s: State, step: Step)
    requires TimelyRedeems(c, s.rows, s.redeems) && TimelyTokens(c, s.rows, s.tokens) && Enabled(c, s, step) && MovesRedeem(step)
    ensures ReadInTime(c, s.rows, Apply(c, s, step).redeems[step.t])
  {
    if step.RedeemGet? {
      GotInTime(c, s, step.t, step.id, step.pin);
    } else {
      ReadBefore(c, s, step);
    }
  }

  lemma OneRedeemMoves(c: Config, s: State, step: Step)
    requires Enabled(c, s, step)
    ensures MovesRedeem(step) ==> Apply(c, s, step).redeems == s.redeems[step.t := Apply(c, s, step).redeems[step.t]]
    ensures !MovesRedeem(step) ==> Apply(c, s, step).redeems == s.redeems
  {
    match step {
      case Tick(_) =>
      case MintInsert(_, _, _) =>
      case MintStore(_) =>
      case MintRollback(_, _) =>
      case MintGrant(_) =>
      case RedeemGet(_, _, _) =>
      case RedeemCount(_) =>
      case RedeemExpire(_) =>
      case RedeemDecide(_, _) =>
      case RedeemUpdate(_) =>
      case RedeemGrant(_) =>
      case Sweep(_) =>
      case Admit(_, _) =>
      case Enter(_) =>
      case Exit(_, _) =>
      case Callback(_, _) =>
    }
  }

  lemma RedeemsMoveTimely(c: Config, s: State, step: Step)
    requires TimelyRedeems(c, s.rows, s.redeems) && TimelyTokens(c, s.rows, s.tokens) && Enabled(c, s, step)
    ensures TimelyRedeems(c, s.rows, Apply(c, s, step).redeems)
  {
    OneRedeemMoves(c, s, step);
    if MovesRedeem(step) {
      RedeemReadInTime(c, s, step);
      MoveTimely(c, s.rows, s.redeems, step.t, Apply(c, s, step).redeems[step.t]);
    }
  }

  lemma RedeemsOld(c: Config, s: State, step: Step)
    requires RedeemsInv(s.redeems, s.stored) && TokensInv(s.tokens, s.stored) && Old(s.stored, s.nextSession) && Enabled(c, s, step)
    ensures forall t | t in Apply(c, s, step).redeems && Apply(c, s, step).redeems[t].Session().Some? ::
              Apply(c, s, step).redeems[t].Session().value < s.nextSession
  {
    if MovesRedeem(step) {
      RedeemMoves(c, s, step);
      MoveRedeem(s.redeems, s.stored, step.t, Apply(c, s, step).redeems[step.t]);
    } else {
      assert Apply(c, s, step).redeems == s.redeems;
    }
  }

  lemma TimelyRedeemsStep(c: Config, s: State, step: Step)
    requires TimelyRedeems(c, s.rows, s.redeems) && TimelyTokens(c, s.rows, s.tokens) && Enabled(c, s, step)
    requires RedeemsInv(s.redeems, s.stored) && TokensInv(s.tokens, s.stored) && Old(s.stored, s.nextSession)
    ensures TimelyRedeems(c, Apply(c, s, step).rows, Apply(c, s, step).redeems)
  {
    BirthStep(c, s, step);
    RedeemsMoveTimely(c, s, step);
    RedeemsOld(c, s, step);
    RedeemsBirth(c, s.rows, Apply(c, s, step).rows, s.nextSession, Apply(c, s, step).redeems);
  }

  lemma SweepIsTimely(c: Config, s: State, at: Time)
    requires TimelySweeps(c, s.now, s.rows) && Enabled(c, s, Sweep(at))
    ensures TimelySweeps(c, Apply(c, s, Sweep(at)).now, Apply(c, s, Sweep(at)).rows)
  {
  }

  /** No other step expires a row. */
  lemma NobodyElseExpires(c: Config, s: State, step: Step)
    requires TimelySweeps(c, s.now, s.rows) && Enabled(c, s, step) && MovesRows(step) && !step.Sweep?
    ensures TimelySweeps(c, Apply(c, s, step).now, Apply(c, s, step).rows)
  {
  }

  lemma TimelySweepsStep(c: Config, s: State, step: Step)
    requires TimelySweeps(c, s.now, s.rows) && Enabled(c, s, step)
    ensures TimelySweeps(c, Apply(c, s, step).now, Apply(c, s, step).rows)
  {
    if step.Sweep? {
      SweepIsTimely(c, s, step.startedAt);
    } else if MovesRows(step) {
      NobodyElseExpires(c, s, step);
    } else {
      RowsStay(c, s, step);
    }
  }

  lemma PrivateAreOld(keys: set<SessionId>, next: SessionId, mints: Mints, stored: set<SessionId>)
    requires MintsInv(keys, next, mints, stored)
    ensures Old(stored, next)
    ensures forall t | t in mints && mints[t].Private() :: mints[t].session < next
    ensures forall t | t in mints && mints[t].Stored? :: mints[t].session in stored
  {
  }

  lemma TimeStep(c: Config, s: State, step: Step)
    requires TimeInv(c, s) && KnownInv(s) && Enabled(c, s, step)
    ensures TimeInv(c, Apply(c, s, step))
  {
    PrivateAreOld(s.rows.Keys, s.nextSession, s.mints, s.stored);
    TimelyTokensStep(c, s, step);
    TimelyMintsStep(c, s, step);
    TimelyRedeemsStep(c, s, step);
    TimelySweepsStep(c, s, step);
  }

  // ---------- phones come with redeemed sessions ----------

  predicate Opened(rows: Rows, sid: SessionId) {
    sid in rows && (rows[sid].status.Active? || rows[sid].status.Ended?)
  }

  ghost predicate RedeemsOpen(rows: Rows, redeems: Redeems) {
    forall t | t in redeems && (redeems[t].Updated? || redeems[t].Joined?) :: Opened(rows, redeems[t].session)
  }

  ghost predicate GrantsOpen(rows: Rows, grants: set<Grant>) {
    forall g | g in grants && g.role == Phone :: Opened(rows, g.room)
  }

  ghost predicate PeersOpen(rows: Rows, peers: Peers) {
    forall p | p in peers && peers[p].role == Phone :: Opened(rows, peers[p].room)
  }

  ghost predicate OpenInv(s: State) {
    RedeemsOpen(s.rows, s.redeems) && GrantsOpen(s.rows, s.grants) && PeersOpen(s.rows, s.peers)
  }

  /** No step closes a stored session that is open: only private rows are deleted. */
  ghost predicate StaysOpen(rows: Rows, rows': Rows, stored: set<SessionId>) {
    forall sid | sid in stored && Opened(rows, sid) :: Opened(rows', sid)
  }

  lemma MovedStaysOpen(c: Config, s: State, step: Step)
    requires Enabled(c, s, step) && MovesRows(step)
    requires Old(s.stored, s.nextSession) && forall t | t in s.mints && s.mints[t].Private() :: s.mints[t].session !in s.stored
    ensures StaysOpen(s.rows, Apply(c, s, step).rows, s.stored)
  {
  }

  lemma OpenStays(c: Config, s: State, step: Step)
    requires Enabled(c, s, step)
    requires Old(s.stored, s.nextSession) && forall t | t in s.mints && s.mints[t].Private() :: s.mints[t].session !in s.stored
    ensures StaysOpen(s.rows, Apply(c, s, step).rows, s.stored)
  {
    if MovesRows(step) {
      MovedStaysOpen(c, s, step);
    } else {
      RowsStay(c, s, step);
    }
  }

  /** The heart of the sweep argument: at a Redeem's UPDATE the row is not expired. */
  lemma UpdateFindsNoExpired(c: Config, s: State, t: CallId)
    requires c.Valid() && c.mintDelay + c.redeemDelay <= c.ttl
    requires Enabled(c, s, RedeemUpdate(t)) && TimelyRedeems(c, s.rows, s.redeems) && TimelySweeps(c, s.now, s.rows)
    requires s.redeems[t].session in s.rows
    ensures !s.rows[s.redeems[t].session].status.Expired?
    ensures Opened(DoRedeemUpdate(s, t).rows, s.redeems[t].session)
  {
    assert ReadInTime(c, s.rows, s.redeems[t]);
  }

  lemma RedeemsOpenFrame(rows: Rows, rows': Rows, redeems: Redeems, stored: set<SessionId>)
    requires RedeemsOpen(rows, redeems) && StaysOpen(rows, rows', stored) && RedeemsInv(redeems, stored)
    ensures RedeemsOpen(rows', redeems)
  {
  }

  lemma MoveOpen(rows: Rows, redeems: Redeems, t: CallId, r: RedeemPc)
    requires RedeemsOpen(rows, redeems) && (r.Updated? || r.Joined? ==> Opened(rows, r.session))
    ensures RedeemsOpen(rows, redeems[t := r])
  {
  }

  lemma MovedIsOpen(c: Config, s: State, step: Step)
    requires c.Valid() && c.mintDelay + c.redeemDelay <= c.ttl && Enabled(c, s, step) && MovesRedeem(step)
    requires RedeemsOpen(s.rows, s.redeems) && RedeemsInv(s.redeems, s.stored) && s.stored <= s.rows.Keys
    requires TimelyRedeems(c, s.rows, s.redeems) && TimelySweeps(c, s.now, s.rows)
    ensures var r := Apply(c, s, step).redeems[step.t];
            r.Updated? || r.Joined? ==> Opened(Apply(c, s, step).rows, r.session)
  {
    if step.RedeemUpdate? {
      assert s.redeems[step.t].Session() == Some(s.redeems[step.t].session);
      UpdateFindsNoExpired(c, s, step.t);
    }
  }

  lemma RedeemsOpenStep(c: Config, s: State, step: Step)
    requires c.Valid() && c.mintDelay + c.redeemDelay <= c.ttl && Enabled(c, s, step)
    requires RedeemsOpen(s.rows, s.redeems) && RedeemsInv(s.redeems, s.stored) && s.stored <= s.rows.Keys
    requires TimelyRedeems(c, s.rows, s.redeems) && TimelySweeps(c, s.now, s.rows)
    requires StaysOpen(s.rows, Apply(c, s, step).rows, s.stored)
    ensures RedeemsOpen(Apply(c, s, step).rows, Apply(c, s, step).redeems)
  {
    var s' := Apply(c, s, step);
    RedeemsOpenFrame(s.rows, s'.rows, s.redeems, s.stored);
    OneRedeemMoves(c, s, step);
    if MovesRedeem(step) {
      MovedIsOpen(c, s, step);
      MoveOpen(s'.rows, s.redeems, step.t, s'.redeems[step.t]);
    }
  }

  lemma GrantsStay(c: Config, s: State, step: Step)
    requires Enabled(c, s, step) && !step.MintGrant? && !step.RedeemGrant?
    ensures Apply(c, s, step).grants == s.grants
  {
    match step {
      case Tick(_) =>
      case MintInsert(_, _, _) =>
      case MintStore(_) =>
      case MintRollback(_, _) =>
      case RedeemGet(_, _, _) =>
      case RedeemCount(_) =>
      case RedeemExpire(_) =>
      case RedeemDecide(_, _) =>
      case RedeemUpdate(_) =>
      case Sweep(_) =>
      case Admit(_, _) =>
      case Enter(_) =>
      case Exit(_, _) =>
      case Callback(_, _) =>
    }
  }

  lemma AgentGrantOpen(c: Config, s: State, t: CallId)
    requires GrantsOpen(s.rows, s.grants) && Enabled(c, s, MintGrant(t))
    ensures GrantsOpen(s.rows, Apply(c, s, MintGrant(t)).grants)
  {
  }

  lemma PhoneGrantOpen(c: Config, s: State, t: CallId)
    requires GrantsOpen(s.rows, s.grants) && RedeemsOpen(s.rows, s.redeems) && Enabled(c, s, RedeemGrant(t))
    ensures GrantsOpen(s.rows, Apply(c, s, RedeemGrant(t)).grants)
  {
  }

  lemma GrantsOpenStep(c: Config, s: State, step: Step)
    requires GrantsOpen(s.rows, s.grants) && GrantsInv(s.grants, s.stored) && RedeemsOpen(s.rows, s.redeems) && Enabled(c, s, step)
    requires StaysOpen(s.rows, Apply(c, s, step).rows, s.stored)
    ensures GrantsOpen(Apply(c, s, step).rows, Apply(c, s, step).grants)
  {
    if step.MintGrant? {
      AgentGrantOpen(c, s, step.t);
      RowsStay(c, s, step);
    } else if step.RedeemGrant? {
      PhoneGrantOpen(c, s, step.t);
      RowsStay(c, s, step);
    } else {
      GrantsStay(c, s, step);
    }
  }

  lemma PeersOpenFrame(rows: Rows, rows': Rows, peers: Peers, grants: set<Grant>, stored: set<SessionId>)
    requires PeersOpen(rows, peers) && PeersInv(peers, stored) && GrantsOpen(rows, grants) && GrantsInv(grants, stored)
    requires StaysOpen(rows, rows', stored)
    ensures PeersOpen(rows', peers) && GrantsOpen(rows', grants)
  {
  }

  lemma MovePeerOpen(rows: Rows, peers: Peers, p: PeerId, x: Peer)
    requires PeersOpen(rows, peers) && (x.role == Phone ==> Opened(rows, x.room))
    ensures PeersOpen(rows, peers[p := x])
  {
  }

  lemma PeersOpenStep(c: Config, s: State, step: Step)
    requires PeersOpen(s.rows, s.peers) && PeersInv(s.peers, s.stored) && Enabled(c, s, step)
    requires GrantsOpen(s.rows, s.grants) && GrantsInv(s.grants, s.stored)
    requires StaysOpen(s.rows, Apply(c, s, step).rows, s.stored)
    ensures PeersOpen(Apply(c, s, step).rows, Apply(c, s, step).peers)
  {
    var s' := Apply(c, s, step);
    PeersOpenFrame(s.rows, s'.rows, s.peers, s.grants, s.stored);
    OnePeerMoves(c, s, step);
    if MovesPeer(step) {
      MovePeerOpen(s'.rows, s.peers, step.p, s'.peers[step.p]);
    }
  }

  lemma OpenStep(c: Config, s: State, step: Step)
    requires c.Valid() && c.mintDelay + c.redeemDelay <= c.ttl && Enabled(c, s, step)
    requires KnownInv(s) && TimeInv(c, s) && OpenInv(s)
    ensures OpenInv(Apply(c, s, step))
  {
    PrivateAreOld(s.rows.Keys, s.nextSession, s.mints, s.stored);
    OpenStays(c, s, step);
    RedeemsOpenStep(c, s, step);
    GrantsOpenStep(c, s, step);
    PeersOpenStep(c, s, step);
  }

  // ---------- sessions end ----------

  ghost predicate CallPending(peers: Peers, room: RoomId) {
    exists p | p in peers :: peers[p].pc.Calling? && peers[p].room == room
  }

  /** The rooms left since the activation with no emptying missed. */
  function Due(s: State): set<SessionId> {
    s.left - s.missed
  }

  /** An active session whose room is due is occupied, or about to be ended. */
  ghost predicate EndsInv(rows: Rows, peers: Peers, left: set<SessionId>) {
    forall sid | sid in rows && rows[sid].status.Active? && sid in left :: Occupied(peers, sid) || CallPending(peers, sid)
  }

  /** Only rooms that some Leave found empty are ended, or about to be. */
  ghost predicate EmptiedInv(rows: Rows, peers: Peers, emptied: set<SessionId>) {
    && (forall sid | sid in rows && rows[sid].status.Ended? :: sid in emptied)
    && forall p | p in peers && peers[p].pc.Calling? :: peers[p].room in emptied
  }

  lemma ExitEmptied(s: State, p: PeerId, out: Outcome)
    requires EmptiedInv(s.rows, s.peers, s.emptied) && p in s.peers
    ensures EmptiedInv(s.rows, DoExit(s, p, out).peers, DoExit(s, p, out).emptied)
  {
  }

  lemma CallbackEmptied(s: State, p: PeerId, fails: bool)
    requires EmptiedInv(s.rows, s.peers, s.emptied) && PeerAt(s, p, Calling)
    ensures EmptiedInv(DoCallback(s, p, fails).rows, DoCallback(s, p, fails).peers, s.emptied)
  {
  }

  lemma EmptiedStep(c: Config, s: State, step: Step)
    requires EmptiedInv(s.rows, s.peers, s.emptied) && Enabled(c, s, step)
    ensures EmptiedInv(Apply(c, s, step).rows, Apply(c, s, step).peers, Apply(c, s, step).emptied)
  {
    match step {
      case Exit(p, out) => ExitEmptied(s, p, out);
      case Callback(p, fails) => CallbackEmptied(s, p, fails);
      case _ =>
    }
  }

  /** A peer that goes leaves others inside, or is the one to call back. */
  lemma ExitEnds(s: State, p: PeerId, out: Outcome, sid: SessionId)
    requires PeerAt(s, p, Inside) && EndsInv(s.rows, s.peers, Due(s))
    requires sid in s.rows && s.rows[sid].status.Active? && sid in Due(DoExit(s, p, out))
    ensures Occupied(DoExit(s, p, out).peers, sid) || CallPending(DoExit(s, p, out).peers, sid)
  {
    var peers' := DoExit(s, p, out).peers;
    if s.peers[p].room == sid {
      if Alone(s.peers, p) {
        assert Reports(s, p, out) && peers'[p].pc.Calling?;
      } else {
        var q :| q in s.peers && q != p && s.peers[q].pc.Inside? && s.peers[q].room == sid;
        assert peers'[q].pc.Inside?;
      }
    } else if Occupied(s.peers, sid) {
      var q :| q in s.peers && s.peers[q].pc.Inside? && s.peers[q].room == sid;
      assert peers'[q] == s.peers[q];
    } else {
      var q :| q in s.peers && s.peers[q].pc.Calling? && s.peers[q].room == sid;
      assert peers'[q] == s.peers[q];
    }
  }

  lemma KeepsPeers(peers: Peers, p: PeerId, x: Peer, sid: SessionId)
    requires p in peers ==> !(peers[p].pc.Inside? && peers[p].room == sid) && !(peers[p].pc.Calling? && peers[p].room == sid)
    ensures Occupied(peers, sid) ==> Occupied(peers[p := x], sid)
    ensures CallPending(peers, sid) ==> CallPending(peers[p := x], sid)
  {
    if Occupied(peers, sid) {
      var q :| q in peers && peers[q].pc.Inside? && peers[q].room == sid;
      assert peers[p := x][q] == peers[q];
    }
    if CallPending(peers, sid) {
      var q :| q in peers && peers[q].pc.Calling? && peers[q].room == sid;
      assert peers[p := x][q] == peers[q];
    }
  }

  lemma FewerActive(rows: Rows, rows': Rows, peers: Peers, left: set<SessionId>, left': set<SessionId>)
    requires EndsInv(rows, peers, left)
    requires forall sid | sid in rows' && rows'[sid].status.Active? && sid in left' ::
               sid in rows && rows[sid].status.Active? && sid in left
    ensures EndsInv(rows', peers, left')
  {
  }

  lemma UpdateEnds(c: Config, s: State, t: CallId)
    requires EndsInv(s.rows, s.peers, Due(s)) && Enabled(c, s, RedeemUpdate(t))
    ensures EndsInv(Apply(c, s, RedeemUpdate(t)).rows, s.peers, Due(Apply(c, s, RedeemUpdate(t))))
  {
    FewerActive(s.rows, DoRedeemUpdate(s, t).rows, s.peers, Due(s), Due(DoRedeemUpdate(s, t)));
  }

  lemma OtherRowsEnd(c: Config, s: State, step: Step)
    requires EndsInv(s.rows, s.peers, Due(s)) && Enabled(c, s, step) && RowsInv(s.now, s.nextSession, s.rows)
    requires step.MintInsert? || step.MintRollback? || step.Sweep?
    ensures EndsInv(Apply(c, s, step).rows, s.peers, Due(s))
  {
    FewerActive(s.rows, Apply(c, s, step).rows, s.peers, Due(s), Due(s));
  }

  lemma DueStays(c: Config, s: State, step: Step)
    requires Enabled(c, s, step) && !step.RedeemUpdate? && !step.Exit? && !step.Callback?
    ensures Due(Apply(c, s, step)) == Due(s)
  {
    match step {
      case Tick(_) =>
      case MintInsert(_, _, _) =>
      case MintStore(_) =>
      case MintRollback(_, _) =>
      case MintGrant(_) =>
      case RedeemGet(_, _, _) =>
      case RedeemCount(_) =>
      case RedeemExpire(_) =>
      case RedeemDecide(_, _) =>
      case RedeemGrant(_) =>
      case Sweep(_) =>
      case Admit(_, _) =>
      case Enter(_) =>
    }
  }

  /** For the steps that leave the peers alone. */
  lemma RowsEnd(c: Config, s: State, step: Step)
    requires EndsInv(s.rows, s.peers, Due(s)) && Enabled(c, s, step) && RowsInv(s.now, s.nextSession, s.rows)
    requires !MovesPeer(step)
    ensures EndsInv(Apply(c, s, step).rows, Apply(c, s, step).peers, Due(Apply(c, s, step)))
  {
    OnePeerMoves(c, s, step);
    if step.RedeemUpdate? {
      UpdateEnds(c, s, step.t);
    } else {
      DueStays(c, s, step);
      if MovesRows(step) {
        OtherRowsEnd(c, s, step);
      } else {
        RowsStay(c, s, step);
      }
    }
  }

  lemma CallbackEnds(s: State, p: PeerId, fails: bool, sid: SessionId)
    requires PeerAt(s, p, Calling) && EndsInv(s.rows, s.peers, Due(s))
    requires var s' := DoCallback(s, p, fails); sid in s'.rows && s'.rows[sid].status.Active? && sid in Due(s')
    ensures Occupied(DoCallback(s, p, fails).peers, sid) || CallPending(DoCallback(s, p, fails).peers, sid)
  {
    assert s.peers[p].room != sid;
    KeepsPeers(s.peers, p, s.peers[p].(pc := Outside), sid);
  }

  lemma EntryEnds(c: Config, s: State, step: Step, sid: SessionId)
    requires Enabled(c, s, step) && (step.Admit? || step.Enter?) && EndsInv(s.rows, s.peers, Due(s))
    requires sid in s.rows && s.rows[sid].status.Active? && sid in Due(s)
    ensures Occupied(Apply(c, s, step).peers, sid) || CallPending(Apply(c, s, step).peers, sid)
  {
    KeepsPeers(s.peers, step.p, Apply(c, s, step).peers[step.p], sid);
  }

  lemma ExitEndsAll(c: Config, s: State, step: Step)
    requires Enabled(c, s, step) && (step.Exit? || step.Callback?) && EndsInv(s.rows, s.peers, Due(s))
    ensures EndsInv(Apply(c, s, step).rows, Apply(c, s, step).peers, Due(Apply(c, s, step)))
  {
    var s' := Apply(c, s, step);
    forall sid | sid in s'.rows && s'.rows[sid].status.Active? && sid in Due(s')
      ensures Occupied(s'.peers, sid) || CallPending(s'.peers, sid)
    {
      if step.Exit? {
        ExitEnds(s, step.p, step.out, sid);
      } else {
        CallbackEnds(s, step.p, step.fails, sid);
      }
    }
  }

  lemma EntryEndsAll(c: Config, s: State, step: Step)
    requires Enabled(c, s, step) && (step.Admit? || step.Enter?) && EndsInv(s.rows, s.peers, Due(s))
    ensures EndsInv(Apply(c, s, step).rows, Apply(c, s, step).peers, Due(Apply(c, s, step)))
  {
    var s' := Apply(c, s, step);
    DueStays(c, s, step);
    RowsStay(c, s, step);
    forall sid | sid in s'.rows && s'.rows[sid].status.Active? && sid in Due(s')
      ensures Occupied(s'.peers, sid) || CallPending(s'.peers, sid)
    {
      EntryEnds(c, s, step, sid);
    }
  }

  lemma EndsStep(c: Config, s: State, step: Step)
    requires EndsInv(s.rows, s.peers, Due(s)) && Enabled(c, s, step) && RowsInv(s.now, s.nextSession, s.rows)
    ensures EndsInv(Apply(c, s, step).rows, Apply(c, s, step).peers, Due(Apply(c, s, step)))
  {
    if step.Exit? || step.Callback? {
      ExitEndsAll(c, s, step);
    } else if step.Admit? || step.Enter? {
      EntryEndsAll(c, s, step);
    } else {
      RowsEnd(c, s, step);
    }
  }

  // ---------- every run ----------

  ghost predicate Inv(c: Config, s: State) {
    && RowsInv(s.now, s.nextSession, s.rows) && KnownInv(s) && TimeInv(c, s)
    && EndsInv(s.rows, s.peers, Due(s)) && EmptiedInv(s.rows, s.peers, s.emptied)
  }

  lemma {:induction false} RunInv(c: Config, run: seq<Step>)
    requires c.Valid() && ValidRun(c, run)
    ensures Inv(c, After(c, run))
  {
    if run != [] {
      var s, step := After(c, run[..|run| - 1]), run[|run| - 1];
      RunInv(c, run[..|run| - 1]);
      RowsStep(c, s, step);
      KnownStep(c, s, step);
      TimeStep(c, s, step);
      EndsStep(c, s, step);
      EmptiedStep(c, s, step);
    }
  }

  lemma {:induction false} RunOpen(c: Config, run: seq<Step>)
    requires c.Valid() && c.mintDelay + c.redeemDelay <= c.ttl && ValidRun(c, run)
    ensures OpenInv(After(c, run))
  {
    if run != [] {
      RunOpen(c, run[..|run| - 1]);
      RunInv(c, run[..|run| - 1]);
      OpenStep(c, After(c, run[..|run| - 1]), run[|run| - 1]);
    }
  }

  /** Rows and live tokens agree. */
  lemma RowsAndTokensAgree(c: Config, run: seq<Step>)
    requires c.Valid() && ValidRun(c, run)
    ensures var s := After(c, run);
            && (forall sid | sid in s.rows :: RowOk(s.now, s.rows[sid]))
            && (forall id | id in s.tokens :: s.tokens[id].rec.session in s.rows)
            && (forall id, jd | id in s.tokens && jd in s.tokens && id != jd :: s.tokens[id].rec.session != s.tokens[jd].rec.session)
  {
    RunInv(c, run);
  }

  /** A phone only connects to a redeemed session, and an agent to an existing one. */
  lemma PhonesComeWithRedeemedSessions(c: Config, run: seq<Step>, p: PeerId)
    requires c.Valid() && c.mintDelay + c.redeemDelay <= c.ttl && ValidRun(c, run)
    requires p in After(c, run).peers
    ensures var s := After(c, run);
            && s.peers[p].room in s.rows
            && (s.peers[p].role == Phone ==> s.rows[s.peers[p].room].status.Active? || s.rows[s.peers[p].room].status.Ended?)
  {
    RunInv(c, run);
    RunOpen(c, run);
  }

  /** The sweep never overtakes a Redeem: each JoinInfo returned names a session that was activated. */
  lemma JoinInfoNamesActivated(c: Config, run: seq<Step>, t: CallId)
    requires c.Valid() && c.mintDelay + c.redeemDelay <= c.ttl && ValidRun(c, run)
    requires t in After(c, run).redeems && After(c, run).redeems[t].Joined?
    ensures Opened(After(c, run).rows, After(c, run).redeems[t].session)
  {
    RunOpen(c, run);
  }

  /** Sessions do end: with no callback in flight, an active session's room is occupied, or nobody has
      left it since the activation, or an emptying since then was missed because a Leave of the room or
      the callback's UPDATE failed. */
  lemma SessionsDoEnd(c: Config, run: seq<Step>, sid: SessionId)
    requires c.Valid() && ValidRun(c, run)
    requires sid in After(c, run).rows && After(c, run).rows[sid].status.Active? && !CallPending(After(c, run).peers, sid)
    ensures Occupied(After(c, run).peers, sid) || sid !in After(c, run).left || sid in After(c, run).missed
  {
    RunInv(c, run);
  }

  /** ... and no session is ended unless some Leave had found its room empty. */
  lemma EndedRoomsWereEmptied(c: Config, run: seq<Step>, sid: SessionId)
    requires c.Valid() && ValidRun(c, run)
    requires sid in After(c, run).rows && After(c, run).rows[sid].status.Ended?
    ensures sid in After(c, run).emptied
  {
    RunInv(c, run);
  }

  /** How often a session was activated in a run. */
  ghost function Activations(c: Config, run: seq<Step>, sid: SessionId): nat
    requires ValidRun(c, run)
  {
    if run == [] then 0
    else
      var s := After(c, run[..|run| - 1]);
      Activations(c, run[..|run| - 1], sid) +
      if sid in s.rows && sid in After(c, run).rows && s.rows[sid].status.Pending? && After(c, run).rows[sid].status.Active? then 1 else 0
  }

  /** A session is activated at most once, exactly if its row is active or ended. */
  lemma {:induction false} ActivatedAtMostOnce(c: Config, run: seq<Step>, sid: SessionId)
    requires c.Valid() && ValidRun(c, run)
    ensures Activations(c, run, sid) <= 1
    ensures sid in After(c, run).rows ==> (Activations(c, run, sid) == 1 <==> Opened(After(c, run).rows, sid))
    ensures sid >= After(c, run).nextSession ==> Activations(c, run, sid) == 0
  {
    if run != [] {
      var before := run[..|run| - 1];
      ActivatedAtMostOnce(c, before, sid);
      RunInv(c, before);
      StatusStep(c, After(c, before), run[|run| - 1], sid);
    }
  }
}
