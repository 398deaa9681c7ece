/** How many PIN comparisons one minted token can get, when Redeem calls come one at a time. For calls
    that overlap see Guessing.
 */
module Attempts {
  import opened Rooms
  import opened Session
  import opened Redis

  datatype World = World(now: Time, store: Store)

  /** A Redeem takes time: `d1` before the counter is raised, `d2` before its expiry is set, `d3`
      before the row is updated. */
  datatype Op =
    | Wait(d: Time)
    | MintOp(id: ConnectId, session: SessionId, pin: Pin)
    | RedeemOp(id: ConnectId, pin: Pin, d1: Time, d2: Time, d3: Time, fault: Fault)

  predicate Allowed(op: Op) {
    match op
    case Wait(d) => d >= 0.0
    case MintOp(_, _, _) => true
    case RedeemOp(_, _, d1, d2, d3, _) => d1 >= 0.0 && d2 >= 0.0 && d3 >= 0.0
  }

  function ClockOf(now: Time, op: Op): Clock
    requires op.RedeemOp?
  {
    Clock(now, now + op.d1, now + op.d1 + op.d2, now + op.d1 + op.d2 + op.d3)
  }

  function Do(w: World, op: Op, ttl: Time): World {
    match op
    case Wait(d) => w.(now := w.now + d)
    case MintOp(id, sid, pin) =>
      if TokenLive(w.store.tokens, id, w.now) then w
      else w.(store := w.store.(rows := InsertRow(w.store.rows, sid, w.now),
                                tokens := SetNX(w.store.tokens, id, Record(sid, pin), w.now, ttl)))
    case RedeemOp(id, pin, _, _, _, fault) =>
      var clock := ClockOf(w.now, op);
      World(clock.update, RedeemStore(w.store, id, pin, clock, fault, ttl))
  }

  /** What has happened to one connect id since it was last minted.
      `compares`: PINs compared; `wins`: PINs accepted; `own`: a counter was started since the mint;
      `leftover`: a counter of an earlier token was live at the mint; `late`: calls that raised a
      counter only after the token's deadline; `closed`: accepted, or refused for too many attempts;
      `kept`: a DEL failed, so that closing did not remove the token. */
  datatype Tally = Tally(compares: nat, wins: nat, own: bool, leftover: bool, late: nat, closed: bool, kept: bool)

  const NEW_TALLY := Tally(0, 0, false, false, 0, false, false)

  function Tell(w: World, t: Tally, id: ConnectId, op: Op): Tally {
    match op
    case Wait(_) => t
    case MintOp(id', _, _) =>
      if id' != id || TokenLive(w.store.tokens, id, w.now) then t
      else NEW_TALLY.(leftover := CounterLive(w.store.attempts, id, w.now))
    case RedeemOp(id', pin, d1, _, _, fault) =>
      if id' != id then t
      else
        var course := CourseOf(w.store, id, pin, ClockOf(w.now, op), fault);
        if course.NoToken? || course.Broken? then t
        else if course.Uncounted? then
          t.(own := t.own || (fault.incr == Failed(true) && !CounterLive(w.store.attempts, id, w.now + d1)))
        else
          Tally(t.compares + (if course.Limited? then 0 else 1),
                t.wins + (if course.Consumed? then 1 else 0),
                t.own || !CounterLive(w.store.attempts, id, w.now + d1),
                t.leftover,
                t.late + (if id in w.store.tokens && w.store.tokens[id].deadline <= w.now + d1 then 1 else 0),
                t.closed || !course.Mismatch?,
                t.kept || (!course.Mismatch? && fault.del == Failed(false)))
  }

  const START := World(0.0, Store(map[], map[], map[]))

  function After(ops: seq<Op>, ttl: Time): World {
    if ops == [] then START else Do(After(ops[..|ops| - 1], ttl), ops[|ops| - 1], ttl)
  }

  function TallyOf(ops: seq<Op>, ttl: Time, id: ConnectId): Tally {
    if ops == [] then NEW_TALLY
    else Tell(After(ops[..|ops| - 1], ttl), TallyOf(ops[..|ops| - 1], ttl, id), id, ops[|ops| - 1])
  }

  function Carried(t: Tally): nat {
    if t.leftover then MAX_REDEEM_TRIES - 1 else 0
  }

  /** While the token is live, its own counter is live too and has counted every comparison beyond
      those that a leftover counter allowed. */
  predicate Inv(w: World, t: Tally, id: ConnectId, ttl: Time) {
    && (id in w.store.attempts ==> 1 <= w.store.attempts[id].count)
    && (t.closed && !t.kept ==> id !in w.store.tokens)
    && (!t.kept ==> t.wins <= if t.closed then 1 else 0)
    && t.late <= 1
    && t.compares <= MAX_REDEEM_TRIES + Carried(t) + t.late
    && (id in w.store.tokens ==> w.store.tokens[id].deadline <= w.now + ttl)
    && (TokenLive(w.store.tokens, id, w.now) ==>
          && t.late == 0
          && if t.own then
               && CounterLive(w.store.attempts, id, w.now)
               && (w.store.attempts[id].deadline.Some? ==> w.store.tokens[id].deadline <= w.store.attempts[id].deadline.value)
               && t.compares <= w.store.attempts[id].count + Carried(t)
             else
               && t.compares <= Carried(t)
               && (CounterLive(w.store.attempts, id, w.now) ==> t.leftover && t.compares < w.store.attempts[id].count))
  }

  lemma MintInv(w: World, t: Tally, id: ConnectId, op: Op, ttl: Time)
    requires Inv(w, t, id, ttl) && op.MintOp? && ttl > 0.0
    ensures Inv(Do(w, op, ttl), Tell(w, t, id, op), id, ttl)
  {
  }

  lemma OtherRedeemInv(w: World, t: Tally, id: ConnectId, op: Op, ttl: Time)
    requires Inv(w, t, id, ttl) && Allowed(op) && op.RedeemOp? && op.id != id && ttl > 0.0
    ensures Inv(Do(w, op, ttl), Tell(w, t, id, op), id, ttl)
  {
  }

  function OwnCourse(w: World, op: Op): Course
    requires op.RedeemOp?
  {
    CourseOf(w.store, op.id, op.pin, ClockOf(w.now, op), op.fault)
  }

  /** A call that compares no PIN and closes nothing. */
  lemma QuietRedeemInv(w: World, t: Tally, id: ConnectId, op: Op, ttl: Time)
    requires Inv(w, t, id, ttl) && Allowed(op) && op.RedeemOp? && op.id == id && ttl > 0.0
    requires OwnCourse(w, op).NoToken? || OwnCourse(w, op).Broken? || OwnCourse(w, op).Uncounted?
    ensures Inv(Do(w, op, ttl), Tell(w, t, id, op), id, ttl)
  {
  }

  lemma MismatchInv(w: World, t: Tally, id: ConnectId, op: Op, ttl: Time)
    requires Inv(w, t, id, ttl) && Allowed(op) && op.RedeemOp? && op.id == id && ttl > 0.0 && OwnCourse(w, op).Mismatch?
    ensures Inv(Do(w, op, ttl), Tell(w, t, id, op), id, ttl)
  {
  }

  lemma ClosingInv(w: World, t: Tally, id: ConnectId, op: Op, ttl: Time)
    requires Inv(w, t, id, ttl) && Allowed(op) && op.RedeemOp? && op.id == id && ttl > 0.0
    requires OwnCourse(w, op).Limited? || OwnCourse(w, op).Consumed?
    ensures Inv(Do(w, op, ttl), Tell(w, t, id, op), id, ttl)
  {
  }

  lemma OwnRedeemInv(w: World, t: Tally, id: ConnectId, op: Op, ttl: Time)
    requires Inv(w, t, id, ttl) && Allowed(op) && op.RedeemOp? && op.id == id && ttl > 0.0
    ensures Inv(Do(w, op, ttl), Tell(w, t, id, op), id, ttl)
  {
    match OwnCourse(w, op) {
      case NoToken => QuietRedeemInv(w, t, id, op, ttl);
      case Broken => QuietRedeemInv(w, t, id, op, ttl);
      case Uncounted => QuietRedeemInv(w, t, id, op, ttl);
      case Mismatch => MismatchInv(w, t, id, op, ttl);
      case Limited => ClosingInv(w, t, id, op, ttl);
      case Consumed => ClosingInv(w, t, id, op, ttl);
    }
  }

  lemma StepInv(w: World, t: Tally, id: ConnectId, op: Op, ttl: Time)
    requires Inv(w, t, id, ttl) && Allowed(op) && ttl > 0.0
    ensures Inv(Do(w, op, ttl), Tell(w, t, id, op), id, ttl)
  {
    if op.MintOp? {
      MintInv(w, t, id, op, ttl);
    } else if op.RedeemOp? {
      if op.id == id {
        OwnRedeemInv(w, t, id, op, ttl);
      } else {
        OtherRedeemInv(w, t, id, op, ttl);
      }
    }
  }

  /** When calls come one at a time, one minted token gets at most 5 comparisons, 9 if an older counter for the same connect id was
      still live when it was minted, and one more for a call that read the live token but counted
      itself only after the token's deadline: whatever statements fail. At most one PIN is accepted,
      unless a DEL failed. */
  lemma {:induction false} ComparisonsAreBounded(ops: seq<Op>, ttl: Time, id: ConnectId)
    requires ttl > 0.0 && forall op | op in ops :: Allowed(op)
    ensures Inv(After(ops, ttl), TallyOf(ops, ttl, id), id, ttl)
    ensures var t := TallyOf(ops, ttl, id);
            t.compares <= (if t.leftover then 9 else 5) + t.late && t.late <= 1 && (t.kept || t.wins <= 1)
  {
    if ops != [] {
      ComparisonsAreBounded(ops[..|ops| - 1], ttl, id);
      StepInv(After(ops[..|ops| - 1], ttl), TallyOf(ops[..|ops| - 1], ttl, id), id, ops[|ops| - 1], ttl);
    }
  }

  /** Once a PIN was accepted or the limit was hit, every call that begins later is refused without a
      comparison until the connect id is minted again. */
  lemma ClosedMeansRefused(ops: seq<Op>, ttl: Time, id: ConnectId, op: Op)
    requires ttl > 0.0 && forall o | o in ops :: Allowed(o)
    requires op.RedeemOp? && op.id == id && Allowed(op) && TallyOf(ops, ttl, id).closed && !TallyOf(ops, ttl, id).kept
    ensures var w := After(ops, ttl);
            && !CourseOf(w.store, id, op.pin, ClockOf(w.now, op), op.fault).Mismatch?
            && !CourseOf(w.store, id, op.pin, ClockOf(w.now, op), op.fault).Consumed?
            && Do(w, op, ttl).store == w.store
  {
    ComparisonsAreBounded(ops, ttl, id);
  }

  // ---------- the bound is exact ----------

  /** Every Redeem counts itself at most `delay` after it has read the token. */
  predicate Prompt(ops: seq<Op>, delay: Time) {
    forall op | op in ops :: Allowed(op) && (op.RedeemOp? ==> op.d1 <= delay)
  }

  /** How many comparisons one token can get, given whether a counter of an earlier token was live at its
      mint and whether a call may pass any time between its two first statements. */
  function Limit(leftover: bool, delay: Time): nat {
    (if leftover then 9 else 5) + if delay > 0.0 then 1 else 0
  }

  lemma {:induction false} PromptCallsAreNotLate(ops: seq<Op>, ttl: Time, id: ConnectId)
    requires Prompt(ops, 0.0)
    ensures TallyOf(ops, ttl, id).late == 0
  {
    if ops != [] {
      PromptCallsAreNotLate(ops[..|ops| - 1], ttl, id);
      assert Allowed(ops[|ops| - 1]);
    }
  }

  lemma LimitHolds(ops: seq<Op>, ttl: Time, id: ConnectId, delay: Time)
    requires ttl > 0.0 && delay >= 0.0 && Prompt(ops, delay)
    ensures TallyOf(ops, ttl, id).compares <= Limit(TallyOf(ops, ttl, id).leftover, delay)
  {
    ComparisonsAreBounded(ops, ttl, id);
    if delay == 0.0 {
      PromptCallsAreNotLate(ops, ttl, id);
    }
  }

  const WRONG := RedeemOp(0, 8, 0.0, 0.0, 0.0, NO_FAULT)

  function CountOf(w: World): nat {
    if CounterLive(w.store.attempts, 0, w.now) then w.store.attempts[0].count else 0
  }

  function DeadlineOf(w: World): Option<Time> {
    if CounterLive(w.store.attempts, 0, w.now) then w.store.attempts[0].deadline else None
  }

  /** The live token of connect id 0, with another PIN than the guesses try. */
  predicate Guessable(w: World, deadline: Time) {
    0 in w.store.tokens && w.store.tokens[0].rec.pin == 7 && w.store.tokens[0].deadline == deadline && w.now < deadline
  }

  lemma OneGuess(ops: seq<Op>, ttl: Time, deadline: Time)
    requires ttl > 0.0 && Guessable(After(ops, ttl), deadline) && CountOf(After(ops, ttl)) < MAX_REDEEM_TRIES
    requires CounterLive(After(ops, ttl).store.attempts, 0, After(ops, ttl).now) ==> CountOf(After(ops, ttl)) > 0
    ensures var w, w' := After(ops, ttl), After(ops + [WRONG], ttl);
            && w'.now == w.now && Guessable(w', deadline) && CountOf(w') == CountOf(w) + 1
            && DeadlineOf(w') == if CountOf(w) == 0 then Some(w.now + ttl) else DeadlineOf(w)
    ensures TallyOf(ops + [WRONG], ttl, 0) ==
            var t := TallyOf(ops, ttl, 0);
            t.(compares := t.compares + 1, own := t.own || !CounterLive(After(ops, ttl).store.attempts, 0, After(ops, ttl).now))
  {
    assert (ops + [WRONG])[..|ops|] == ops;
  }

  /** n wrong PINs, all at once. */
  lemma {:induction false} Guesses(ops: seq<Op>, ttl: Time, deadline: Time, delay: Time, n: nat) returns (more: seq<Op>)
    requires ttl > 0.0 && delay >= 0.0 && Prompt(ops, delay) && Guessable(After(ops, ttl), deadline)
    requires n > 0 && CountOf(After(ops, ttl)) + n <= MAX_REDEEM_TRIES
    requires CounterLive(After(ops, ttl).store.attempts, 0, After(ops, ttl).now) ==> CountOf(After(ops, ttl)) > 0
    ensures Prompt(more, delay)
    ensures var w, w' := After(ops, ttl), After(more, ttl);
            && w'.now == w.now && Guessable(w', deadline) && CountOf(w') == CountOf(w) + n
            && DeadlineOf(w') == if CountOf(w) == 0 then Some(w.now + ttl) else DeadlineOf(w)
    ensures TallyOf(more, ttl, 0) ==
            var t := TallyOf(ops, ttl, 0);
            t.(compares := t.compares + n, own := t.own || CountOf(After(ops, ttl)) == 0)
    decreases n
  {
    OneGuess(ops, ttl, deadline);
    more := ops + [WRONG];
    if n > 1 {
      more := Guesses(more, ttl, deadline, delay, n - 1);
    }
  }

  lemma Then(ops: seq<Op>, op: Op, ttl: Time, delay: Time)
    requires Prompt(ops, delay) && Allowed(op) && (op.RedeemOp? ==> op.d1 <= delay)
    ensures Prompt(ops + [op], delay)
    ensures After(ops + [op], ttl) == Do(After(ops, ttl), op, ttl)
    ensures TallyOf(ops + [op], ttl, 0) == Tell(After(ops, ttl), TallyOf(ops, ttl, 0), 0, op)
  {
    assert (ops + [op])[..|ops|] == ops;
  }

  /** Five guesses after a mint that found no counter. */
  lemma FiveGuesses(ttl: Time, delay: Time) returns (ops: seq<Op>)
    requires ttl > 0.0 && delay >= 0.0
    ensures Prompt(ops, delay)
    ensures var w, t := After(ops, ttl), TallyOf(ops, ttl, 0);
            w.now == 0.0 && Guessable(w, ttl) && CountOf(w) == 5 && DeadlineOf(w) == Some(ttl)
            && t.compares == 5 && !t.leftover && t.late == 0
  {
    Then([], MintOp(0, 0, 7), ttl, delay);
    ops := Guesses([] + [MintOp(0, 0, 7)], ttl, ttl, delay, 5);
  }

  /** A mint right after its predecessor has lapsed, while the predecessor's counter, whose expiry was set
      `slack` later than the token's, is still live: four guesses more, and five once it has lapsed. */
  lemma NineGuesses(ttl: Time, delay: Time, slack: Time) returns (ops: seq<Op>)
    requires 0.0 < slack < ttl && delay >= 0.0
    ensures Prompt(ops, delay)
    ensures var w, t := After(ops, ttl), TallyOf(ops, ttl, 0);
            w.now == ttl + slack && Guessable(w, 2.0 * ttl) && CountOf(w) == 5 && DeadlineOf(w) == Some(2.0 * ttl + slack)
            && t.compares == 9 && t.leftover && t.late == 0
  {
    ops := LeftCounter(ttl, delay, slack);
    ops := Guesses(ops, ttl, 2.0 * ttl, delay, 4);
    Then(ops, Wait(slack), ttl, delay);
    ops := ops + [Wait(slack)];
    ops := Guesses(ops, ttl, 2.0 * ttl, delay, 5);
  }

  lemma LeftCounter(ttl: Time, delay: Time, slack: Time) returns (ops: seq<Op>)
    requires 0.0 < slack < ttl && delay >= 0.0
    ensures Prompt(ops, delay)
    ensures var w, t := After(ops, ttl), TallyOf(ops, ttl, 0);
            w.now == ttl && Guessable(w, 2.0 * ttl) && CountOf(w) == 1 && DeadlineOf(w) == Some(ttl + slack)
            && t == NEW_TALLY.(leftover := true)
  {
    var slow := RedeemOp(0, 8, 0.0, slack, 0.0, NO_FAULT);
    Then([], MintOp(0, 0, 7), ttl, delay);
    ops := [] + [MintOp(0, 0, 7)];
    Then(ops, slow, ttl, delay);
    ops := ops + [slow];
    Then(ops, Wait(ttl - slack), ttl, delay);
    ops := ops + [Wait(ttl - slack)];
    Then(ops, MintOp(0, 1, 7), ttl, delay);
    ops := ops + [MintOp(0, 1, 7)];
  }

  /** One more call, that reads the token just before its deadline and counts itself once the counter
      has lapsed too. */
  lemma LateGuess(ops: seq<Op>, ttl: Time, delay: Time, deadline: Time, d: Time) returns (more: seq<Op>)
    requires ttl > 0.0 && 0.0 < d <= delay && Prompt(ops, delay) && Guessable(After(ops, ttl), deadline)
    requires CountOf(After(ops, ttl)) == 5 && DeadlineOf(After(ops, ttl)).Some?
    requires var lapse := DeadlineOf(After(ops, ttl)).value; After(ops, ttl).now <= lapse - d < deadline <= lapse
    ensures Prompt(more, delay)
    ensures TallyOf(more, ttl, 0).compares == TallyOf(ops, ttl, 0).compares + 1
    ensures TallyOf(more, ttl, 0).leftover == TallyOf(ops, ttl, 0).leftover
  {
    var w := After(ops, ttl);
    var wait := Wait(w.store.attempts[0].deadline.value - d - w.now);
    Then(ops, wait, ttl, delay);
    var late := RedeemOp(0, 8, d, 0.0, 0.0, NO_FAULT);
    Then(ops + [wait], late, ttl, delay);
    more := ops + [wait] + [late];
  }

  lemma LimitIsReached(ttl: Time, leftover: bool, delay: Time) returns (ops: seq<Op>)
    requires ttl > 0.0 && delay >= 0.0
    ensures Prompt(ops, delay) && TallyOf(ops, ttl, 0).leftover == leftover
    ensures TallyOf(ops, ttl, 0).compares == Limit(leftover, delay)
  {
    var d := if delay < ttl then delay else ttl;
    if leftover {
      var slack := if d > 0.0 then d / 2.0 else ttl / 2.0;
      ops := NineGuesses(ttl, delay, slack);
      if d > 0.0 {
        ops := LateGuess(ops, ttl, delay, 2.0 * ttl, d);
      }
    } else {
      ops := FiveGuesses(ttl, delay);
      if d > 0.0 {
        ops := LateGuess(ops, ttl, delay, ttl, d);
      }
    }
  }

  /** The most comparisons one minted token gets from calls that come one at a time are exactly 5, 9 after a
      mint that found a counter of an earlier token, and one more if calls may dawdle at all between reading
      the token and counting. */
  lemma BoundIsExact(ttl: Time, leftover: bool, delay: Time, bound: nat)
    requires ttl > 0.0 && delay >= 0.0
    ensures (forall ops, id | Prompt(ops, delay) && TallyOf(ops, ttl, id).leftover == leftover :: TallyOf(ops, ttl, id).compares <= bound)
            <==> Limit(leftover, delay) <= bound
  {
    forall ops, id | Prompt(ops, delay) && TallyOf(ops, ttl, id).leftover == leftover
      ensures TallyOf(ops, ttl, id).compares <= Limit(leftover, delay)
    {
      LimitHolds(ops, ttl, id, delay);
    }
    var most := LimitIsReached(ttl, leftover, delay);
    assert TallyOf(most, ttl, 0).compares == Limit(leftover, delay);
  }

  /** So for such calls five tries are the limit exactly if the mint found no earlier counter and no call
      dawdles. */
  lemma FiveTriesExactly(ttl: Time, leftover: bool, delay: Time)
    requires ttl > 0.0 && delay >= 0.0
    ensures (forall ops, id | Prompt(ops, delay) && TallyOf(ops, ttl, id).leftover == leftover ::
               TallyOf(ops, ttl, id).compares <= MAX_REDEEM_TRIES)
            <==> !leftover && delay == 0.0
  {
    BoundIsExact(ttl, leftover, delay, MAX_REDEEM_TRIES);
  }

  /** Single use rests on the DEL: if it fails, the same PIN is accepted twice. */
  lemma FailedDeleteAcceptsTwice(ttl: Time)
    requires ttl > 0.0
    ensures exists ops :: (forall op | op in ops :: Allowed(op)) && TallyOf(ops, ttl, 0).wins == 2
  {
    var right := RedeemOp(0, 7, 0.0, 0.0, 0.0, NO_FAULT.(del := Failed(false)));
    var mint := MintOp(0, 0, 7);
    Then([], mint, ttl, 0.0);
    Then([mint], right, ttl, 0.0);
    Then([mint] + [right], right, ttl, 0.0);
    assert TallyOf([mint] + [right] + [right], ttl, 0).wins == 2;
  }
}
