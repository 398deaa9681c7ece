/** Who is connected: the hub slots of every instance, presence, and how far each connection has come.

    Each connection runs one goroutine: Hub.Join, the read loop, then the deferred tear-down. Every
    critical section and every presence transaction of that goroutine is a step of its own here, so
    the goroutines interleave freely.
 */
module Roster {
  import opened Rooms
  import opened Hub
  import P = Presence

  type Inst = nat

  datatype Mode = InProcess | PubSub

  datatype Config = Config(mode: Mode, instances: set<Inst>) {
    /** The in-process fanout and presence serve a single instance. */
    predicate Valid() {
      mode.InProcess? ==> forall i, j :: i in instances && j in instances ==> i == j
    }
  }

  /** How far a connection's goroutine has come. */
  datatype Phase =
    | Registered   // holds the slot, not yet counted in
    | Greeting     // counted in, saw its counterpart, about to Send peer-ready to itself
    | Announcing   // about to publish peer-ready to its counterpart
    | Live         // Join has returned, in the read loop
    | Unslotted    // Leave has freed the slot, not yet counted out
    | Signalling   // counted out of a now empty room, callback still to come
    | Left         // Leave has returned
    | Closed       // send channel closed
    | Gone         // bye published
  {
    predicate HasSlot() {
      Registered? || Greeting? || Announcing? || Live?
    }

    /** Between the presence Join and the presence Leave. */
    predicate Present() {
      Greeting? || Announcing? || Live? || Unslotted?
    }
  }

  datatype Ident = Ident(room: RoomId, role: Role, inst: Inst)

  /** `newest` remembers the last connection to register for each slot; `presentAt` when a connection
      was counted in (0 before); `log` the presence calls in their order, and `outs` how they ended. */
  datatype Roster = Roster(
    ids: map<PeerId, Ident>,
    phases: map<PeerId, Phase>,
    presentAt: map<PeerId, nat>,
    newest: map<Ident, PeerId>,
    hubs: map<Inst, Slots<PeerId>>,
    counts: P.Counts,
    log: seq<P.Event>,
    outs: seq<Outcome>)

  function Init(c: Config): Roster {
    Roster(map[], map[], map[], map[], map i | i in c.instances :: map[], map[], [], [])
  }

  ghost predicate Shape(c: Config, now: nat, r: Roster) {
    && r.phases.Keys == r.ids.Keys
    && r.presentAt.Keys == r.ids.Keys
    && r.hubs.Keys == c.instances
    && (forall i | i in r.hubs :: NoEmptyRoom(r.hubs[i]))
    && (forall p | p in r.ids :: r.ids[p].inst in c.instances)
    && forall p | p in r.ids :: if r.phases[p].Registered? then r.presentAt[p] == 0 else 0 < r.presentAt[p] < now
  }

  // ---------- steps ----------

  function Enroll(r: Roster, p: PeerId, id: Ident): Roster
    requires id.inst in r.hubs
  {
    r.(ids := r.ids[p := id], phases := r.phases[p := Registered], presentAt := r.presentAt[p := 0],
       newest := r.newest[id := p],
       hubs := r.hubs[id.inst := Put(r.hubs[id.inst], id.room, id.role, p)])
  }

  function CountIn(r: Roster, p: PeerId, now: nat): Roster
    requires p in r.ids
  {
    var id := r.ids[p];
    var counts := P.Add(r.counts, id.room, id.role, 1);
    var ready := Opposite(id.role) in P.Others(counts, id.room, id.role);
    r.(phases := r.phases[p := if ready then Greeting else Live], presentAt := r.presentAt[p := now],
       counts := counts, log := r.log + [P.Join(p, id.room, id.role)], outs := r.outs + [Done])
  }

  function FreeSlot(r: Roster, p: PeerId): Roster
    requires p in r.ids && r.ids[p].inst in r.hubs
  {
    var id := r.ids[p];
    r.(phases := r.phases[p := Unslotted], hubs := r.hubs[id.inst := Drop(r.hubs[id.inst], id.room, id.role, p)])
  }

  function PresenceLeave(c: Config, counts: P.Counts, room: RoomId, role: Role): P.Counts {
    if c.mode.InProcess? then P.LocalLeave(counts, room, role) else P.Add(counts, room, role, -1)
  }

  /** Presence Leave. With Redis it may fail, and then reports the room occupied. */
  function CountOut(c: Config, r: Roster, p: PeerId, out: Outcome): Roster
    requires p in r.ids
  {
    var id := r.ids[p];
    var counts := if out == Failed(false) then r.counts else PresenceLeave(c, r.counts, id.room, id.role);
    r.(phases := r.phases[p := if out.Done? && P.Vacant(counts, id.room) then Signalling else Left],
       counts := counts, log := r.log + [P.Leave(p, id.room, id.role)], outs := r.outs + [out])
  }

  function Goto(r: Roster, p: PeerId, phase: Phase): Roster {
    r.(phases := r.phases[p := phase])
  }

  /** The transitions that leave slots and presence alone. */
  predicate Passes(a: Phase, b: Phase) {
    || a == b
    || (a.Greeting? && b.Announcing?)
    || (a.Announcing? && b.Live?)
    || (a.Signalling? && b.Left?)
    || (a.Left? && b.Closed?)
    || (a.Closed? && b.Gone?)
  }

  // ---------- slots ----------

  ghost predicate Holds(r: Roster, p: PeerId) {
    && p in r.ids && r.ids[p].inst in r.hubs
    && At(r.hubs[r.ids[p].inst], r.ids[p].room, r.ids[p].role) == Some(p)
  }

  /** A slot holds the newest registrant as long as that one has not left, and else nobody. */
  ghost predicate SlotsInv(r: Roster)
    requires r.phases.Keys == r.ids.Keys
  {
    && (forall id | id in r.newest :: r.newest[id] in r.ids && r.ids[r.newest[id]] == id)
    && (forall p | p in r.ids :: r.ids[p] in r.newest)
    && forall i, room, role | i in r.hubs ::
         var id := Ident(room, role, i);
         At(r.hubs[i], room, role) ==
         if id in r.newest && r.newest[id] in r.phases && r.phases[r.newest[id]].HasSlot() then Some(r.newest[id]) else None
  }

  lemma ShapeEnroll(c: Config, now: nat, r: Roster, p: PeerId, id: Ident)
    requires Shape(c, now, r) && p !in r.ids && id.inst in r.hubs
    ensures Shape(c, now, Enroll(r, p, id))
  {
    PutAt(r.hubs[id.inst], id.room, id.role, p);
  }

  lemma SlotsEnroll(r: Roster, p: PeerId, id: Ident)
    requires r.phases.Keys == r.ids.Keys && SlotsInv(r) && p !in r.ids && id.inst in r.hubs
    ensures SlotsInv(Enroll(r, p, id))
  {
    PutAt(r.hubs[id.inst], id.room, id.role, p);
  }

  lemma ShapeFree(c: Config, now: nat, r: Roster, p: PeerId)
    requires Shape(c, now, r) && p in r.ids && r.phases[p].Live?
    ensures Shape(c, now, FreeSlot(r, p))
  {
    DropAt(r.hubs[r.ids[p].inst], r.ids[p].room, r.ids[p].role, p);
  }

  lemma SlotsFree(r: Roster, p: PeerId)
    requires r.phases.Keys == r.ids.Keys && SlotsInv(r) && p in r.ids && r.phases[p].Live? && r.ids[p].inst in r.hubs
    ensures SlotsInv(FreeSlot(r, p))
  {
    DropAt(r.hubs[r.ids[p].inst], r.ids[p].room, r.ids[p].role, p);
  }

  lemma ShapeCountIn(c: Config, now: nat, r: Roster, p: PeerId)
    requires Shape(c, now, r) && p in r.ids && now > 0
    ensures Shape(c, now + 1, CountIn(r, p, now))
  {
  }

  lemma SlotsCountIn(r: Roster, p: PeerId, now: nat)
    requires r.phases.Keys == r.ids.Keys && SlotsInv(r) && p in r.ids && r.phases[p].Registered?
    ensures SlotsInv(CountIn(r, p, now))
  {
  }

  lemma ShapeCountOut(c: Config, now: nat, r: Roster, p: PeerId, out: Outcome)
    requires Shape(c, now, r) && p in r.ids && r.phases[p].Unslotted?
    ensures Shape(c, now, CountOut(c, r, p, out))
  {
  }

  lemma SlotsCountOut(c: Config, r: Roster, p: PeerId, out: Outcome)
    requires r.phases.Keys == r.ids.Keys && SlotsInv(r) && p in r.ids && r.phases[p].Unslotted?
    ensures SlotsInv(CountOut(c, r, p, out))
  {
  }

  lemma ShapeGoto(c: Config, now: nat, r: Roster, p: PeerId, phase: Phase)
    requires Shape(c, now, r) && p in r.ids && Passes(r.phases[p], phase)
    ensures Shape(c, now, Goto(r, p, phase))
  {
  }

  lemma SlotsGoto(r: Roster, p: PeerId, phase: Phase)
    requires r.phases.Keys == r.ids.Keys && SlotsInv(r) && p in r.ids && Passes(r.phases[p], phase)
    ensures SlotsInv(Goto(r, p, phase))
  {
  }

  // ---------- presence ----------

  function PresenceRun(c: Config, h: seq<P.Event>, outs: seq<Outcome>): P.Counts
    requires |h| == |outs|
  {
    if c.mode.InProcess? then P.LocalRun(h) else P.RedisRun(h, outs)
  }

  /** Only Redis Leaves fail. */
  ghost predicate Allowed(c: Config, h: seq<P.Event>, outs: seq<Outcome>)
    requires |h| == |outs|
  {
    forall i | 0 <= i < |h| && (h[i].Join? || c.mode.InProcess?) :: outs[i].Done?
  }

  /** The presence calls form a well-formed history, the store holds its outcome, and the history's
      live connections are the present ones. */
  ghost predicate LogInv(c: Config, r: Roster)
    requires r.phases.Keys == r.ids.Keys
  {
    && |r.log| == |r.outs| && Allowed(c, r.log, r.outs)
    && P.WellFormed(r.log)
    && r.counts == PresenceRun(c, r.log, r.outs)
    && (forall p :: p in P.Seen(r.log) <==> p in r.ids && !r.phases[p].Registered?)
    && (forall p :: p in P.Live(r.log) <==> p in r.ids && r.phases[p].Present())
    && forall p | p in P.Live(r.log) :: P.Live(r.log)[p] == P.Place(r.ids[p].room, r.ids[p].role)
  }

  lemma RunMore(c: Config, h: seq<P.Event>, outs: seq<Outcome>, e: P.Event, o: Outcome)
    requires |h| == |outs| && Allowed(c, h, outs) && (e.Join? || c.mode.InProcess? ==> o.Done?)
    ensures Allowed(c, h + [e], outs + [o])
    ensures PresenceRun(c, h + [e], outs + [o]) ==
            if o == Failed(false) then PresenceRun(c, h, outs)
            else if e.Join? then P.Add(PresenceRun(c, h, outs), e.room, e.role, 1)
            else PresenceLeave(c, PresenceRun(c, h, outs), e.room, e.role)
  {
    assert (h + [e])[..|h|] == h;
    P.RedisMore(h, outs, e, o);
  }

  lemma LogCountIn(c: Config, r: Roster, p: PeerId, now: nat)
    requires r.phases.Keys == r.ids.Keys && LogInv(c, r) && p in r.ids && r.phases[p].Registered?
    ensures LogInv(c, CountIn(r, p, now))
  {
    var e := P.Join(p, r.ids[p].room, r.ids[p].role);
    P.LiveMore(r.log, e);
    RunMore(c, r.log, r.outs, e, Done);
  }

  lemma StoreCountOut(c: Config, r: Roster, p: PeerId, out: Outcome)
    requires |r.log| == |r.outs| && Allowed(c, r.log, r.outs) && r.counts == PresenceRun(c, r.log, r.outs) && p in r.ids
    requires c.mode.InProcess? ==> out.Done?
    ensures var r' := CountOut(c, r, p, out);
            |r'.log| == |r'.outs| && Allowed(c, r'.log, r'.outs) && r'.counts == PresenceRun(c, r'.log, r'.outs)
  {
    RunMore(c, r.log, r.outs, P.Leave(p, r.ids[p].room, r.ids[p].role), out);
  }

  lemma LogCountOut(c: Config, r: Roster, p: PeerId, out: Outcome)
    requires r.phases.Keys == r.ids.Keys && LogInv(c, r) && p in r.ids && r.phases[p].Unslotted?
    requires c.mode.InProcess? ==> out.Done?
    ensures LogInv(c, CountOut(c, r, p, out))
  {
    P.LiveMore(r.log, P.Leave(p, r.ids[p].room, r.ids[p].role));
    StoreCountOut(c, r, p, out);
  }

  lemma LogEnroll(c: Config, r: Roster, p: PeerId, id: Ident)
    requires r.phases.Keys == r.ids.Keys && LogInv(c, r) && p !in r.ids && id.inst in r.hubs
    ensures LogInv(c, Enroll(r, p, id))
  {
  }

  lemma LogFree(c: Config, r: Roster, p: PeerId)
    requires r.phases.Keys == r.ids.Keys && LogInv(c, r) && p in r.ids && r.phases[p].Live? && r.ids[p].inst in r.hubs
    ensures LogInv(c, FreeSlot(r, p))
  {
  }

  lemma LogGoto(c: Config, r: Roster, p: PeerId, phase: Phase)
    requires r.phases.Keys == r.ids.Keys && LogInv(c, r) && p in r.ids && Passes(r.phases[p], phase)
    ensures LogInv(c, Goto(r, p, phase))
  {
  }

  // ---------- every step keeps the invariant ----------

  ghost predicate Inv(c: Config, now: nat, r: Roster) {
    now > 0 && Shape(c, now, r) && SlotsInv(r) && LogInv(c, r)
  }

  lemma InitInv(c: Config)
    ensures Inv(c, 1, Init(c))
  {
  }

  lemma ShapeLater(c: Config, now: nat, r: Roster)
    requires Shape(c, now, r)
    ensures Shape(c, now + 1, r)
  {
  }

  lemma LaterInv(c: Config, now: nat, r: Roster)
    requires Inv(c, now, r)
    ensures Inv(c, now + 1, r)
  {
    ShapeLater(c, now, r);
  }

  lemma EnrollInv(c: Config, now: nat, r: Roster, p: PeerId, id: Ident)
    requires Inv(c, now, r) && p !in r.ids && id.inst in r.hubs
    ensures Inv(c, now, Enroll(r, p, id))
  {
    ShapeEnroll(c, now, r, p, id);
    SlotsEnroll(r, p, id);
    LogEnroll(c, r, p, id);
  }

  lemma CountInInv(c: Config, now: nat, r: Roster, p: PeerId)
    requires Inv(c, now, r) && p in r.ids && r.phases[p].Registered?
    ensures Inv(c, now + 1, CountIn(r, p, now))
  {
    ShapeCountIn(c, now, r, p);
    SlotsCountIn(r, p, now);
    LogCountIn(c, r, p, now);
  }

  lemma FreeSlotInv(c: Config, now: nat, r: Roster, p: PeerId)
    requires Inv(c, now, r) && p in r.ids && r.phases[p].Live?
    ensures r.ids[p].inst in r.hubs && Inv(c, now, FreeSlot(r, p))
  {
    ShapeFree(c, now, r, p);
    SlotsFree(r, p);
    LogFree(c, r, p);
  }

  lemma CountOutInv(c: Config, now: nat, r: Roster, p: PeerId, out: Outcome)
    requires Inv(c, now, r) && p in r.ids && r.phases[p].Unslotted? && (c.mode.InProcess? ==> out.Done?)
    ensures Inv(c, now, CountOut(c, r, p, out))
  {
    ShapeCountOut(c, now, r, p, out);
    SlotsCountOut(c, r, p, out);
    LogCountOut(c, r, p, out);
  }

  lemma GotoInv(c: Config, now: nat, r: Roster, p: PeerId, phase: Phase)
    requires Inv(c, now, r) && p in r.ids && Passes(r.phases[p], phase)
    ensures Inv(c, now, Goto(r, p, phase))
  {
    ShapeGoto(c, now, r, p, phase);
    SlotsGoto(r, p, phase);
    LogGoto(c, r, p, phase);
  }

  // ---------- what the invariant gives ----------

  /** The connections now present at a place. */
  ghost function Occupants(r: Roster, room: RoomId, role: Role): set<PeerId> {
    set p | p in r.ids && p in r.phases && r.phases[p].Present() && r.ids[p].room == room && r.ids[p].role == role
  }

  lemma OccupantsAreMembers(c: Config, r: Roster, room: RoomId, role: Role)
    requires r.phases.Keys == r.ids.Keys && LogInv(c, r)
    ensures Occupants(r, room, role) == P.Members(P.Live(r.log), room, role)
  {
    forall p ensures p in Occupants(r, room, role) <==> p in P.Members(P.Live(r.log), room, role) {}
  }

  lemma RunCounts(c: Config, h: seq<P.Event>, outs: seq<Outcome>, room: RoomId, role: Role)
    requires P.WellFormed(h) && |h| == |outs| && Allowed(c, h, outs)
    ensures P.Count(PresenceRun(c, h, outs), room, role) == |P.Members(P.Live(h), room, role)| + P.Lost(h, outs, room, role)
    ensures P.Lost(h, outs, room, role) >= 0
  {
    assert P.JoinsSucceed(h, outs);
    P.LostLeaves(h, outs, room, role);
    if c.mode.InProcess? {
      P.LocalCounts(h);
      assert P.NoneLostAt(h, outs, room, role);
    } else {
      P.RedisCounts(h, outs);
    }
  }

  /** The stored count of a role is the number of connections between their presence Join and their
      presence Leave, and one more for each Leave of that place that was not applied. */
  lemma CountsAreConserved(c: Config, r: Roster, room: RoomId, role: Role)
    requires r.phases.Keys == r.ids.Keys && LogInv(c, r)
    ensures P.Count(r.counts, room, role) == |Occupants(r, room, role)| + P.Lost(r.log, r.outs, room, role)
    ensures P.Lost(r.log, r.outs, room, role) >= 0
  {
    OccupantsAreMembers(c, r, room, role);
    RunCounts(c, r.log, r.outs, room, role);
  }

  /** A newcomer goes on to announce itself exactly if a counterpart is present or a Leave of the
      counterpart's place was lost. */
  lemma CountInSeesCounterpart(c: Config, r: Roster, p: PeerId, now: nat)
    requires r.phases.Keys == r.ids.Keys && LogInv(c, r) && p in r.ids && r.phases[p].Registered?
    ensures var room, role := r.ids[p].room, Opposite(r.ids[p].role);
            CountIn(r, p, now).phases[p] ==
            if Occupants(r, room, role) != {} || P.Lost(r.log, r.outs, room, role) > 0 then Greeting else Live
  {
    var id := r.ids[p];
    CountsAreConserved(c, r, id.room, Opposite(id.role));
    P.AddCounts(r.counts, id.room, id.role, 1);
  }

  /** Nobody but p is present in p's room. */
  ghost predicate LastOut(r: Roster, p: PeerId)
    requires p in r.ids && r.phases.Keys == r.ids.Keys
  {
    forall q | q in r.ids && q != p && r.phases[q].Present() :: r.ids[q].room != r.ids[p].room
  }

  lemma VacantRun(c: Config, h: seq<P.Event>, outs: seq<Outcome>, room: RoomId)
    requires P.WellFormed(h) && |h| == |outs| && Allowed(c, h, outs)
    ensures P.Vacant(PresenceRun(c, h, outs), room) <==> !P.Occupied(h, room) && P.NoneLost(h, outs, room)
  {
    if c.mode.InProcess? {
      P.LocalCounts(h);
      P.VacantMeansUnoccupied(h, P.LocalRun(h), room);
    } else {
      P.VacantExactly(h, outs, room);
    }
  }

  lemma UnoccupiedIsLastOut(c: Config, r: Roster, p: PeerId, out: Outcome)
    requires r.phases.Keys == r.ids.Keys && p in r.ids && r.phases[p].Unslotted?
    requires LogInv(c, CountOut(c, r, p, out))
    ensures !P.Occupied(CountOut(c, r, p, out).log, r.ids[p].room) <==> LastOut(r, p)
  {
    var live := P.Live(CountOut(c, r, p, out).log);
    forall q ensures q in live && live[q].room == r.ids[p].room <==>
                     q in r.ids && q != p && r.phases[q].Present() && r.ids[q].room == r.ids[p].room {}
  }

  /** A leaver calls back exactly if its Leave succeeds, nobody else of either role is present, and no
      Leave of this room was ever lost. */
  lemma CountOutSignalsEmptied(c: Config, r: Roster, p: PeerId, out: Outcome)
    requires r.phases.Keys == r.ids.Keys && LogInv(c, r) && p in r.ids && r.phases[p].Unslotted? && (c.mode.InProcess? ==> out.Done?)
    ensures CountOut(c, r, p, out).phases[p].Signalling? <==> out.Done? && LastOut(r, p) && P.NoneLost(r.log, r.outs, r.ids[p].room)
  {
    var r' := CountOut(c, r, p, out);
    LogCountOut(c, r, p, out);
    VacantRun(c, r'.log, r'.outs, r.ids[p].room);
    UnoccupiedIsLastOut(c, r, p, out);
    P.NoneLostMore(r.log, r.outs, P.Leave(p, r.ids[p].room, r.ids[p].role), out, r.ids[p].room);
  }
}
