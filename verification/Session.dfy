/** Connection tokens and session rows.

    Postgres rows and Redis keys sit side by side: the token record and the attempt counter of a
    connect id have deadlines, the session row has a status. Every statement the service runs is one
    function on the store here; the service methods run them in the program's order, and so do the
    concurrent calls of the Lifecycle module.

    Connect ids and PINs are digit strings of which only equality matters, and the PIN hash is
    taken to be injective, so a PIN stands for its hash. Time is real and one clock serves all.
 */
module Session {
  import opened Rooms
  import opened Redis

  type SessionId = RoomId
  type ConnectId = nat
  type Pin = nat

  const MAX_REDEEM_TRIES := 5
  const MINT_TRIES := 5

  datatype Status = Pending | Active | Ended | Expired

  datatype Row = Row(status: Status, createdAt: Time, connectedAt: Option<Time>, endedAt: Option<Time>)

  datatype Record = Record(session: SessionId, pin: Pin)

  datatype Entry = Entry(rec: Record, deadline: Time)

  type Rows = map<SessionId, Row>
  type Tokens = map<ConnectId, Entry>
  type Attempts = map<ConnectId, Counter>

  // ---------- Redis ----------

  predicate TokenLive(tokens: Tokens, id: ConnectId, now: Time) {
    id in tokens && now < tokens[id].deadline
  }

  predicate CounterLive(attempts: Attempts, id: ConnectId, now: Time) {
    Alive(Find(attempts, id), now)
  }

  /** SET NX with a time to live; it does nothing while the key is live. */
  function SetNX(tokens: Tokens, id: ConnectId, rec: Record, now: Time, ttl: Time): Tokens {
    if TokenLive(tokens, id, now) then tokens else tokens[id := Entry(rec, now + ttl)]
  }

  function Incr(attempts: Attempts, id: ConnectId, now: Time): Attempts {
    attempts[id := Incremented(Find(attempts, id), now)]
  }

  function ExpireKey(attempts: Attempts, id: ConnectId, now: Time, ttl: Time): Attempts {
    if CounterLive(attempts, id, now) then attempts[id := Expiring(attempts[id], now, ttl)] else attempts
  }

  // ---------- Postgres ----------

  function InsertRow(rows: Rows, sid: SessionId, now: Time): Rows {
    rows[sid := Row(Pending, now, None, None)]
  }

  function Activate(rows: Rows, sid: SessionId, now: Time): Rows {
    if sid in rows && rows[sid].status.Pending?
    then rows[sid := rows[sid].(status := Active, connectedAt := Some(now))] else rows
  }

  function MarkEnded(rows: Rows, sid: SessionId, now: Time): Rows {
    if sid in rows && rows[sid].status.Active?
    then rows[sid := rows[sid].(status := Ended, endedAt := Some(now))] else rows
  }

  /** Pending rows created before the cutoff. */
  function Stale(rows: Rows, cutoff: Time): set<SessionId> {
    set sid | sid in rows && rows[sid].status.Pending? && rows[sid].createdAt < cutoff
  }

  function ExpireStale(rows: Rows, cutoff: Time): Rows {
    map sid | sid in rows :: if sid in Stale(rows, cutoff) then rows[sid].(status := Expired) else rows[sid]
  }

  // ---------- the service, one call at a time ----------

  datatype Error = InvalidToken | TooManyAttempts | StoreFailed | NoUniqueId

  /** How the statements of a Redeem end; the service does not look at the outcome of EXPIRE and DEL. */
  datatype Fault = Fault(get: bool, incr: Outcome, expire: Outcome, del: Outcome, update: Outcome, issue: bool)

  const NO_FAULT := Fault(false, Done, Done, Done, Done, false)

  /** One try of a Mint: the connect id it draws, when its INSERT and its SET NX run, and how they and the
      roll-back end. A failed draw ends the Mint like an INSERT that was not applied. */
  datatype Try = Try(id: ConnectId, insertAt: Time, storeAt: Time, insert: Outcome, store: Outcome, deleteFails: bool)

  /** The first i tries of a Mint met a live connect id each, and no error that ends it. */
  predicate AllTaken(tokens: Tokens, tries: seq<Try>, i: nat)
    requires i <= |tries|
  {
    forall j | 0 <= j < i :: TokenLive(tokens, tries[j].id, tries[j].storeAt) && tries[j].insert.Done? && tries[j].store.Done?
  }

  /** The i-th try is the Mint's last: an error or a free connect id ends it. */
  predicate LastTry(tokens: Tokens, tries: seq<Try>, i: nat)
    requires i < |tries|
  {
    && AllTaken(tokens, tries, i)
    && (tries[i].insert.Failed? || tries[i].store.Failed? || !TokenLive(tokens, tries[i].id, tries[i].storeAt))
  }

  lemma LastTryIsOne(tokens: Tokens, tries: seq<Try>, n: nat)
    requires n < |tries| && LastTry(tokens, tries, n)
    ensures forall i: nat | i < |tries| && LastTry(tokens, tries, i) :: i == n
  {
  }

  /** What a Mint leaves behind and answers when its i-th try is the last. */
  predicate EndsAt(before: Store, first: SessionId, tries: seq<Try>, i: nat, pin: Pin, signFails: bool, ttl: Time,
                   r: Result<Minted, Error>, after: Store)
    requires i < |tries|
  {
    var t, sid := tries[i], first + i;
    var left := AfterTries(before.rows, first, tries, i);
    && after.rows == (if t.insert == Failed(false) then left else InsertRow(left, sid, t.insertAt))
    && after.tokens == (if t.insert.Failed? || t.store == Failed(false) then before.tokens
                        else SetNX(before.tokens, t.id, Record(sid, pin), t.storeAt, ttl))
    && after.attempts == before.attempts
    && r == if t.insert.Failed? || t.store.Failed? || signFails then Err(StoreFailed) else Ok(Minted(sid, t.id))
  }

  /** The rows after i tries that met a live connect id: only a failed roll-back leaves one behind. */
  function AfterTries(rows: Rows, first: SessionId, tries: seq<Try>, i: nat): Rows
    requires i <= |tries|
  {
    if i == 0 then rows
    else
      var before := AfterTries(rows, first, tries, i - 1);
      if tries[i - 1].deleteFails then InsertRow(before, first + i - 1, tries[i - 1].insertAt) else before
  }

  /** A Mint that uses up its tries leaves the rows as they were if and only if every roll-back worked. */
  lemma {:induction false} TriesLeaveRows(rows: Rows, first: SessionId, tries: seq<Try>, i: nat)
    requires i <= |tries| && forall sid | sid in rows :: sid < first
    ensures AfterTries(rows, first, tries, i) == rows <==> forall j | 0 <= j < i :: !tries[j].deleteFails
    ensures forall sid | sid in rows :: sid in AfterTries(rows, first, tries, i) && AfterTries(rows, first, tries, i)[sid] == rows[sid]
    ensures forall sid | first <= sid ::
              (sid in AfterTries(rows, first, tries, i) <==> sid < first + i && tries[sid - first].deleteFails)
              && (sid in AfterTries(rows, first, tries, i) ==> AfterTries(rows, first, tries, i)[sid].status.Pending?)
    ensures forall sid | sid in AfterTries(rows, first, tries, i) :: sid < first + i
  {
    if i > 0 {
      TriesLeaveRows(rows, first, tries, i - 1);
      var before, after := AfterTries(rows, first, tries, i - 1), AfterTries(rows, first, tries, i);
      if tries[i - 1].deleteFails {
        assert first + i - 1 in after && first + i - 1 !in rows;
      }
    }
  }

  datatype Minted = Minted(session: SessionId, connectId: ConnectId)

  /** When the four store accesses of a Redeem happen. */
  datatype Clock = Clock(get: Time, incr: Time, expire: Time, update: Time) {
    predicate Valid() {
      get <= incr <= expire <= update
    }
  }

  datatype Store = Store(rows: Rows, tokens: Tokens, attempts: Attempts)

  /** The counter after a Redeem has counted itself in. */
  function Counted(attempts: Attempts, id: ConnectId, clock: Clock, fault: Fault, ttl: Time): Attempts {
    var a := Incr(attempts, id, clock.incr);
    if a[id].count == 1 && fault.expire != Failed(false) then ExpireKey(a, id, clock.expire, ttl) else a
  }

  /** How far a Redeem gets: whether it counts itself and compares the PIN, and whether it accepts it. */
  datatype Course = NoToken | Broken | Uncounted | Limited | Mismatch | Consumed

  function CourseOf(s: Store, id: ConnectId, pin: Pin, clock: Clock, fault: Fault): Course {
    if fault.get then Broken
    else if !TokenLive(s.tokens, id, clock.get) then NoToken
    else if fault.incr.Failed? then Uncounted
    else if Incr(s.attempts, id, clock.incr)[id].count > MAX_REDEEM_TRIES then Limited
    else if pin != s.tokens[id].rec.pin then Mismatch
    else Consumed
  }

  function RedeemStore(s: Store, id: ConnectId, pin: Pin, clock: Clock, fault: Fault, ttl: Time): Store {
    match CourseOf(s, id, pin, clock, fault)
    case NoToken => s
    case Broken => s
    case Uncounted => if fault.incr == Failed(true) then s.(attempts := Incr(s.attempts, id, clock.incr)) else s
    case Mismatch => s.(attempts := Counted(s.attempts, id, clock, fault, ttl))
    case Limited => Invalidated(s, id, clock, fault, ttl)
    case Consumed =>
      Invalidated(s, id, clock, fault, ttl).(
        rows := if fault.update == Failed(false) then s.rows else Activate(s.rows, s.tokens[id].rec.session, clock.update))
  }

  /** DEL of both keys, after the call has counted itself in. */
  function Invalidated(s: Store, id: ConnectId, clock: Clock, fault: Fault, ttl: Time): Store {
    if fault.del == Failed(false) then s.(attempts := Counted(s.attempts, id, clock, fault, ttl))
    else s.(tokens := s.tokens - {id}, attempts := s.attempts - {id})
  }

  /** A Redeem counts itself exactly if it has read a live token and its INCR is applied, also if it is then
      refused; the call that starts a counter gives it the token's lifetime; and a call that is accepted or
      exceeds the limit removes it. */
  lemma CounterExactly(s: Store, id: ConnectId, pin: Pin, clock: Clock, fault: Fault, ttl: Time)
    requires id in s.attempts ==> s.attempts[id].count >= 1
    ensures var after := RedeemStore(s, id, pin, clock, fault, ttl).attempts;
            var live := id in s.tokens && clock.get < s.tokens[id].deadline;
            var alive := id in s.attempts && (s.attempts[id].deadline.Some? ==> clock.incr < s.attempts[id].deadline.value);
            var n := if alive then s.attempts[id].count + 1 else 1;
            var deadline := if alive then s.attempts[id].deadline
                            else if fault.incr.Done? && fault.expire != Failed(false) then Some(clock.expire + ttl)
                            else None;
            && after - {id} == s.attempts - {id}
            && (fault.get || !live || fault.incr == Failed(false) ==> after == s.attempts)
            && (!fault.get && live && fault.incr != Failed(false) ==>
                  if fault.incr.Done? && fault.del != Failed(false) && (n > 5 || pin == s.tokens[id].rec.pin) then id !in after
                  else id in after && after[id] == Counter(n, deadline))
  {
  }

  /** A Mint that answers with a token: all tries before its last met a live connect id, its own did not; it
      leaves one new pending row, its token for the lifetime, and no other row but those whose roll-back
      failed. A Mint that fails with an error leaves at most one row and one token besides. */
  lemma MintedExactly(before: Store, first: SessionId, tries: seq<Try>, n: nat, pin: Pin, signFails: bool, ttl: Time,
                      r: Result<Minted, Error>, after: Store)
    requires n < |tries| && LastTry(before.tokens, tries, n) && EndsAt(before, first, tries, n, pin, signFails, ttl, r, after)
    requires forall sid | sid in before.rows :: sid < first
    ensures var t := tries[n];
            var entry := Entry(Record(first + n, pin), t.storeAt + ttl);
            var taken := t.id in before.tokens && t.storeAt < before.tokens[t.id].deadline;
            && (r == Err(StoreFailed) || r == Ok(Minted(first + n, t.id)))
            && (r.Ok? <==> t.insert.Done? && t.store.Done? && !signFails)
            && (t.insert.Done? && t.store.Done? ==> !taken)
            && after.attempts == before.attempts
            && after.tokens == (if t.insert.Done? && t.store != Failed(false) && !taken then before.tokens[t.id := entry] else before.tokens)
            && (forall sid | sid in before.rows :: sid in after.rows && after.rows[sid] == before.rows[sid])
            && (first + n in after.rows <==> t.insert != Failed(false))
            && (first + n in after.rows ==> after.rows[first + n] == Row(Pending, t.insertAt, None, None))
            && forall sid | first <= sid && sid != first + n :: sid in after.rows <==> sid < first + n && tries[sid - first].deleteFails
  {
    TriesLeaveRows(before.rows, first, tries, n);
  }

  /** Which try is the last: no earlier one is free or meets an error, and it is or does. */
  lemma LastTryExactly(tokens: Tokens, tries: seq<Try>, n: nat)
    requires n < |tries|
    ensures LastTry(tokens, tries, n) <==>
            && (forall j | 0 <= j < n :: tries[j].insert.Done? && tries[j].store.Done?
                  && tries[j].id in tokens && tries[j].storeAt < tokens[tries[j].id].deadline)
            && (tries[n].insert.Failed? || tries[n].store.Failed?
                || !(tries[n].id in tokens && tries[n].storeAt < tokens[tries[n].id].deadline))
  {
  }

  class Service {
    const ttl: Time
    var rows: Rows
    var tokens: Tokens
    var attempts: Attempts
    var nextSession: SessionId   // gen_random_uuid: a session id never handed out before

    ghost function View(): Store
      reads this
    {
      Store(rows, tokens, attempts)
    }

    ghost predicate Valid()
      reads this
    {
      forall sid | sid in rows :: sid < nextSession
    }

    constructor (ttl: Time)
      ensures Valid() && this.ttl == ttl && View() == Store(map[], map[], map[])
    {
      this.ttl := ttl;
      rows, tokens, attempts, nextSession := map[], map[], map[], 0;
    }

    /** Mint. The first try whose connect id names no live token stores the token; with five live ones
        the Mint fails. A SET NX that failed leaves a pending row, with a token if it was applied. */
    method Mint(tries: seq<Try>, pin: Pin, signFails: bool) returns (r: Result<Minted, Error>)
      requires Valid() && |tries| == 5
      modifies this
      ensures Valid()
      ensures r == Err(NoUniqueId) <==> AllTaken(old(tokens), tries, 5)
      ensures r == Err(NoUniqueId) ==>
                && tokens == old(tokens) && attempts == old(attempts)
                && rows == AfterTries(old(rows), old(nextSession), tries, 5)
                && (rows == old(rows) <==> forall i | 0 <= i < 5 :: !tries[i].deleteFails)
      ensures forall i: nat | i < 5 && LastTry(old(tokens), tries, i) ::
                EndsAt(old(View()), old(nextSession), tries, i, pin, signFails, ttl, r, View())
      ensures r.Ok? ==>
                && r.value.session !in old(rows) && r.value.session in rows && rows[r.value.session].status.Pending?
                && r.value.connectId in tokens && tokens[r.value.connectId].rec == Record(r.value.session, pin)
    {
      var n := 0;
      while n < MINT_TRIES
        invariant 0 <= n <= MINT_TRIES
        invariant tokens == old(tokens) && attempts == old(attempts) && nextSession == old(nextSession) + n
        invariant rows == AfterTries(old(rows), old(nextSession), tries, n)
        invariant AllTaken(tokens, tries, n)
      {
        TriesLeaveRows(old(rows), old(nextSession), tries, n);
        var t := tries[n];
        if t.insert == Failed(false) {
          LastTryIsOne(tokens, tries, n);
          return Err(StoreFailed);
        }
        var sid := nextSession;
        nextSession := nextSession + 1;
        rows := InsertRow(rows, sid, t.insertAt);
        if t.insert.Failed? {
          LastTryIsOne(tokens, tries, n);
          return Err(StoreFailed);
        }
        var ok := !TokenLive(tokens, t.id, t.storeAt);
        if t.store.Failed? || ok {
          LastTryIsOne(tokens, tries, n);
        }
        if t.store != Failed(false) {
          tokens := SetNX(tokens, t.id, Record(sid, pin), t.storeAt, ttl);
        }
        if t.store.Failed? {
          return Err(StoreFailed);
        }
        if ok {
          return if signFails then Err(StoreFailed) else Ok(Minted(sid, t.id));
        }
        if !t.deleteFails {
          rows := rows - {sid};
        }
        n := n + 1;
      }
      TriesLeaveRows(old(rows), old(nextSession), tries, MINT_TRIES);
      return Err(NoUniqueId);
    }

    /** `out` is the outcome of the DEL, which the caller never learns. */
    method Invalidate(id: ConnectId, out: Outcome)
      modifies this`tokens, this`attempts
      ensures tokens == (if out == Failed(false) then old(tokens) else old(tokens) - {id})
      ensures attempts == (if out == Failed(false) then old(attempts) else old(attempts) - {id})
    {
      if out != Failed(false) {
        tokens := tokens - {id};
        attempts := attempts - {id};
      }
    }

    /** Redeem. The call is accepted exactly if no statement before the UPDATE fails, the token was live, the
        PIN is the token's, and at most four calls were counted before it by a live counter; after five it is
        refused for good. */
    method Redeem(id: ConnectId, pin: Pin, clock: Clock, fault: Fault) returns (r: Result<SessionId, Error>)
      requires Valid() && clock.Valid()
      modifies this`rows, this`tokens, this`attempts
      ensures Valid()
      ensures var counted := if id in old(attempts) && (old(attempts)[id].deadline.Some? ==> clock.incr < old(attempts)[id].deadline.value)
                             then old(attempts)[id].count else 0;
              var live := id in old(tokens) && clock.get < old(tokens)[id].deadline;
              var accepted := !fault.get && live && fault.incr.Done? && counted < 5 && pin == old(tokens)[id].rec.pin;
              var closed := !fault.get && live && fault.incr.Done? && counted >= 5;
              && (r.Ok? <==> accepted && fault.update.Done? && !fault.issue)
              && (r.Ok? ==> r.value == old(tokens)[id].rec.session)
              && (r == Err(TooManyAttempts) <==> closed)
              && (r == Err(InvalidToken) <==>
                    !fault.get && (!live || (fault.incr.Done? && counted < 5 && pin != old(tokens)[id].rec.pin)))
              && r != Err(NoUniqueId)
              && tokens == (if (accepted || closed) && fault.del != Failed(false) then old(tokens) - {id} else old(tokens))
              && rows == (if accepted && fault.update != Failed(false) then Activate(old(rows), old(tokens)[id].rec.session, clock.update)
                          else old(rows))
      ensures rows.Keys == old(rows).Keys
      ensures forall sid | sid in rows && rows[sid] != old(rows)[sid] ::
                && old(rows)[sid].status.Pending?
                && rows[sid] == Row(Active, old(rows)[sid].createdAt, Some(clock.update), old(rows)[sid].endedAt)
      ensures r.Ok? && r.value in rows ==> if old(rows)[r.value].status.Pending? then rows[r.value].status.Active? else rows[r.value] == old(rows)[r.value]
      ensures View() == RedeemStore(old(View()), id, pin, clock, fault, ttl)
      ensures r.Ok? <==> CourseOf(old(View()), id, pin, clock, fault).Consumed? && fault.update.Done? && !fault.issue
      ensures r == Err(TooManyAttempts) <==> CourseOf(old(View()), id, pin, clock, fault).Limited?
      ensures r == Err(InvalidToken) <==>
              CourseOf(old(View()), id, pin, clock, fault).NoToken? || CourseOf(old(View()), id, pin, clock, fault).Mismatch?
      ensures r == Err(StoreFailed) <==>
              var course := CourseOf(old(View()), id, pin, clock, fault);
              course.Broken? || course.Uncounted? || (course.Consumed? && (fault.update.Failed? || fault.issue))
    {
      if fault.get {
        return Err(StoreFailed);
      }
      if !TokenLive(tokens, id, clock.get) {
        return Err(InvalidToken);
      }
      var rec := tokens[id].rec;
      if fault.incr != Failed(false) {
        attempts := Incr(attempts, id, clock.incr);
      }
      if fault.incr.Failed? {
        return Err(StoreFailed);
      }
      var n := attempts[id].count;
      if n == 1 && fault.expire != Failed(false) {
        attempts := ExpireKey(attempts, id, clock.expire, ttl);
      }
      if n > MAX_REDEEM_TRIES {
        Invalidate(id, fault.del);
        assert fault.del != Failed(false) ==> attempts == old(attempts) - {id};
        return Err(TooManyAttempts);
      }
      if pin != rec.pin {
        return Err(InvalidToken);
      }
      Invalidate(id, fault.del);
      assert fault.del != Failed(false) ==> attempts == old(attempts) - {id};
      if fault.update != Failed(false) {
        rows := Activate(rows, rec.session, clock.update);
      }
      if fault.update.Failed? {
        return Err(StoreFailed);
      }
      if fault.issue {
        return Err(StoreFailed);
      }
      return Ok(rec.session);
    }

    /** The row is ended from active and nothing else: unless the UPDATE is not applied, it is ended
        afterwards exactly if it was active or ended. A second call changes nothing, and every other row
        and every creation time stays. */
    method EndSession(sid: SessionId, now: Time, out: Outcome) returns (ok: bool)
      requires Valid()
      modifies this`rows
      ensures Valid() && ok == out.Done?
      ensures rows == (if out == Failed(false) then old(rows) else MarkEnded(old(rows), sid, now))
      ensures out != Failed(false) ==> MarkEnded(rows, sid, now) == rows
      ensures rows.Keys == old(rows).Keys && rows - {sid} == old(rows) - {sid}
      ensures sid in rows ==>
                var before, after := old(rows)[sid], rows[sid];
                && (out != Failed(false) ==> (after.status.Ended? <==> before.status.Active? || before.status.Ended?))
                && (!before.status.Active? || out == Failed(false) ==> after == before)
                && (after != before ==> after.endedAt == Some(now))
                && after.createdAt == before.createdAt && after.connectedAt == before.connectedAt
    {
      if out != Failed(false) && sid in rows && rows[sid].status.Active? {
        rows := rows[sid := rows[sid].(status := Ended, endedAt := Some(now))];
      }
      return out.Done?;
    }

    /** Exactly the pending rows older than the cutoff expire, keeping their times; no pending row that
        old is left, and the number returned is how many there were. An UPDATE that is not applied changes
        nothing, and a failed one returns no number. */
    method ExpireStalePending(olderThan: Time, now: Time, out: Outcome) returns (r: Result<nat, Error>)
      requires Valid()
      modifies this`rows
      ensures Valid()
      ensures rows == if out == Failed(false) then old(rows) else ExpireStale(old(rows), now - olderThan)
      ensures rows.Keys == old(rows).Keys
      ensures forall sid | sid in rows ::
                var before, after := old(rows)[sid], rows[sid];
                && (after != before <==> out != Failed(false) && before.status.Pending? && now - before.createdAt > olderThan)
                && (after != before ==> after.status.Expired?)
                && (after.status.Pending? && out != Failed(false) ==> now - after.createdAt <= olderThan)
                && after.createdAt == before.createdAt && after.connectedAt == before.connectedAt && after.endedAt == before.endedAt
      ensures r == if out.Done? then Ok(|set sid | sid in rows && rows[sid] != old(rows)[sid]|) else Err(StoreFailed)
    {
      var stale := Stale(rows, now - olderThan);
      if out != Failed(false) {
        rows := ExpireStale(rows, now - olderThan);
        assert stale == set sid | sid in rows && rows[sid] != old(rows)[sid];
      }
      return if out.Done? then Ok(|stale|) else Err(StoreFailed);
    }
  }
}
