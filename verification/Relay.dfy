/** The whole signaling relay as a step system: the goroutines of all connections, the carriers of
    all published frames and the writers, interleaved in any way, on one instance with the
    in-process fanout or on many with Redis pub/sub.
 */
module Relay {
  import opened Rooms
  import opened Mailbox
  import opened Hub
  import P = Presence
  import R = Roster
  import W = Wire

  /** `ended` holds the rooms the room-ended callback was called with. */
  datatype State = State(now: nat, r: R.Roster, w: W.Wire, ended: seq<RoomId>)

  datatype Step =
    | Register(p: PeerId, id: R.Ident)
    | CountIn(p: PeerId)
    | Greet(p: PeerId)
    | Announce(p: PeerId)
    | Relay(p: PeerId, kind: string, payload: string)
    | Reject(p: PeerId)
    | Unslot(p: PeerId)
    | CountOut(p: PeerId, out: Outcome)
    | Signal(p: PeerId)
    | CloseSend(p: PeerId)
    | SayBye(p: PeerId)
    | Take(p: PeerId)
    | Deliver(k: W.Carrier)
    | Send(k: W.Carrier)

  function Init(c: R.Config): State {
    State(1, R.Init(c), W.Init(c), [])
  }

  /** p's goroutine is at this point, and a publish of its own has returned. */
  predicate InPhase(s: State, p: PeerId, phase: R.Phase) {
    && p in s.r.ids && p in s.r.phases && p in s.w.sent && p in s.w.boxes && s.r.ids[p].inst in s.r.hubs
    && s.r.phases[p] == phase
    && W.ByPeer(p) in s.w.queues && s.w.queues[W.ByPeer(p)] == []
  }

  predicate HasFrame(s: State, k: W.Carrier) {
    && k in s.w.queues && s.w.queues[k] != [] && s.w.queues[k][0].Published?
    && (k.ByPeer? ==> k.peer in s.r.ids)
    && W.Where(s.r.ids, k) in s.r.hubs
  }

  predicate Enabled(c: R.Config, s: State, step: Step) {
    match step
    case Register(p, id) => p !in s.r.ids && id.inst in s.r.hubs
    case CountIn(p) => InPhase(s, p, R.Registered)
    case Greet(p) => InPhase(s, p, R.Greeting)
    case Announce(p) => InPhase(s, p, R.Announcing)
    case Relay(p, _, _) => InPhase(s, p, R.Live)
    case Reject(p) => InPhase(s, p, R.Live)
    case Unslot(p) => InPhase(s, p, R.Live)
    case CountOut(p, out) => InPhase(s, p, R.Unslotted) && (c.mode.InProcess? ==> out.Done?)
    case Signal(p) => InPhase(s, p, R.Signalling)
    case CloseSend(p) => InPhase(s, p, R.Left)
    case SayBye(p) => InPhase(s, p, R.Closed)
    case Take(p) => p in s.w.boxes && s.w.boxes[p].queue != []
    case Deliver(k) => HasFrame(s, k) && k !in s.w.hands
    case Send(k) => HasFrame(s, k) && k in s.w.hands && s.w.hands[k] in s.w.boxes
  }

  function Receiver(s: State, k: W.Carrier): Option<PeerId>
    requires HasFrame(s, k)
  {
    At(s.r.hubs[W.Where(s.r.ids, k)], s.w.queues[k][0].room, s.w.queues[k][0].target)
  }

  function RosterAfter(c: R.Config, s: State, step: Step): R.Roster
    requires Enabled(c, s, step)
  {
    match step
    case Register(p, id) => R.Enroll(s.r, p, id)
    case CountIn(p) => R.CountIn(s.r, p, s.now)
    case Greet(p) => R.Goto(s.r, p, R.Announcing)
    case Announce(p) => R.Goto(s.r, p, R.Live)
    case Unslot(p) => R.FreeSlot(s.r, p)
    case CountOut(p, out) => R.CountOut(c, s.r, p, out)
    case Signal(p) => R.Goto(s.r, p, R.Left)
    case CloseSend(p) => R.Goto(s.r, p, R.Closed)
    case SayBye(p) => R.Goto(s.r, p, R.Gone)
    case _ => s.r
  }

  function WireAfter(c: R.Config, s: State, step: Step): W.Wire
    requires Enabled(c, s, step)
  {
    match step
    case Register(p, _) => W.Attach(s.w, p)
    case Greet(p) => W.Offer(s.w, p, W.Own(READY), s.now)
    case Announce(p) => W.Publish(c, s.r.ids, s.w, p, s.now, READY)
    case Relay(p, kind, payload) => W.Publish(c, s.r.ids, s.w, p, s.now, Envelope(kind, Some(s.r.ids[p].role), payload))
    case Reject(p) => W.Offer(s.w, p, W.Own(MALFORMED), s.now)
    case CloseSend(p) => W.WithBox(s.w, p, s.w.boxes[p].Close())
    case SayBye(p) => W.Publish(c, s.r.ids, s.w, p, s.now, Bye(s.r.ids[p].role))
    case Take(p) => W.WithBox(s.w, p, s.w.boxes[p].Take())
    case Deliver(k) => W.PickUp(s.w, k, Receiver(s, k))
    case Send(k) => W.HandOver(s.w, k, s.now)
    case _ => s.w
  }

  function Apply(c: R.Config, s: State, step: Step): State
    requires Enabled(c, s, step)
  {
    State(s.now + 1, RosterAfter(c, s, step), WireAfter(c, s, step),
          if step.Signal? then s.ended + [s.r.ids[step.p].room] else s.ended)
  }

  ghost predicate ValidRun(c: R.Config, run: seq<Step>)
    decreases |run|, 0
  {
    run == [] || (ValidRun(c, run[..|run| - 1]) && Enabled(c, After(c, run[..|run| - 1]), run[|run| - 1]))
  }

  ghost function After(c: R.Config, run: seq<Step>): State
    requires ValidRun(c, run)
    decreases |run|, 1
  {
    if run == [] then Init(c) else Apply(c, After(c, run[..|run| - 1]), run[|run| - 1])
  }

  // ---------- roster and wire ----------

  lemma RosterStep(c: R.Config, s: State, step: Step)
    requires R.Inv(c, s.now, s.r) && Enabled(c, s, step)
    ensures R.Inv(c, s.now + 1, RosterAfter(c, s, step))
  {
    match step {
      case CountIn(p) => R.CountInInv(c, s.now, s.r, p);
      case Register(p, id) => R.EnrollInv(c, s.now, s.r, p, id);
      case Unslot(p) => R.FreeSlotInv(c, s.now, s.r, p);
      case CountOut(p, out) => R.CountOutInv(c, s.now, s.r, p, out);
      case Greet(p) => R.GotoInv(c, s.now, s.r, p, R.Announcing);
      case Announce(p) => R.GotoInv(c, s.now, s.r, p, R.Live);
      case Signal(p) => R.GotoInv(c, s.now, s.r, p, R.Left);
      case CloseSend(p) => R.GotoInv(c, s.now, s.r, p, R.Closed);
      case SayBye(p) => R.GotoInv(c, s.now, s.r, p, R.Gone);
      case _ =>
    }
    if !step.CountIn? {
      R.LaterInv(c, s.now, RosterAfter(c, s, step));
    }
  }

  lemma ReceiverOk(c: R.Config, s: State, k: W.Carrier)
    requires R.Inv(c, s.now, s.r) && W.Inv(c, s.r.ids, s.w) && HasFrame(s, k) && Receiver(s, k).Some?
    ensures W.HandOk(s.r.ids, s.w.queues, k, Receiver(s, k).value)
  {
    SlotOwner(c, s, W.Where(s.r.ids, k), s.w.queues[k][0].room, s.w.queues[k][0].target);
  }

  lemma SlotOwner(c: R.Config, s: State, i: R.Inst, room: RoomId, role: Role)
    requires R.Inv(c, s.now, s.r) && i in s.r.hubs && At(s.r.hubs[i], room, role).Some?
    ensures var q := At(s.r.hubs[i], room, role).value; q in s.r.ids && s.r.ids[q] == R.Ident(room, role, i)
  {
    var id := R.Ident(room, role, i);
    assert id in s.r.newest;
  }

  lemma DeliverWire(c: R.Config, s: State, k: W.Carrier)
    requires R.Inv(c, s.now, s.r) && W.Inv(c, s.r.ids, s.w) && HasFrame(s, k) && k !in s.w.hands
    ensures W.Inv(c, s.r.ids, W.PickUp(s.w, k, Receiver(s, k)))
  {
    if Receiver(s, k).Some? {
      ReceiverOk(c, s, k);
    }
    W.PickUpInv(c, s.r.ids, s.w, k, Receiver(s, k));
  }

  lemma PublishWire(c: R.Config, s: State, p: PeerId, env: Envelope)
    requires W.Inv(c, s.r.ids, s.w) && p in s.r.ids && (env == READY || env.from == Some(s.r.ids[p].role))
    ensures p in s.w.sent && W.Inv(c, s.r.ids, W.Publish(c, s.r.ids, s.w, p, s.now, env))
  {
    W.PublishInv(c, s.r.ids, s.w, p, s.now, env);
  }

  lemma OtherWire(c: R.Config, s: State, step: Step)
    requires W.Inv(c, s.r.ids, s.w) && Enabled(c, s, step) && !step.Deliver?
    ensures W.Inv(c, RosterAfter(c, s, step).ids, WireAfter(c, s, step))
  {
    match step {
      case Register(p, id) => W.AttachInv(c, s.r.ids, s.w, p, id);
      case Greet(p) => W.OfferOwnInv(c, s.r.ids, s.w, p, READY, s.now);
      case Announce(p) => PublishWire(c, s, p, READY);
      case Relay(p, kind, payload) => PublishWire(c, s, p, Envelope(kind, Some(s.r.ids[p].role), payload));
      case Reject(p) => W.OfferOwnInv(c, s.r.ids, s.w, p, MALFORMED, s.now);
      case CloseSend(p) => W.CloseInv(c, s.r.ids, s.w, p);
      case SayBye(p) => PublishWire(c, s, p, Bye(s.r.ids[p].role));
      case Take(p) => W.TakeInv(c, s.r.ids, s.w, p);
      case Send(k) => W.HandOverInv(c, s.r.ids, s.w, k, s.now);
      case _ =>
    }
  }

  lemma WireStep(c: R.Config, s: State, step: Step)
    requires R.Inv(c, s.now, s.r) && W.Inv(c, s.r.ids, s.w) && Enabled(c, s, step)
    ensures W.Inv(c, RosterAfter(c, s, step).ids, WireAfter(c, s, step))
  {
    if step.Deliver? {
      DeliverWire(c, s, step.k);
    } else {
      OtherWire(c, s, step);
    }
  }

  // ---------- peer-ready ----------

  /** Two connections are never counted in at the same time. */
  ghost predicate Distinct(presentAt: map<PeerId, nat>) {
    forall p, q | p in presentAt && q in presentAt && p != q && presentAt[p] > 0 :: presentAt[p] != presentAt[q]
  }

  ghost predicate Stamped(now: nat, queues: W.Queues) {
    forall k, i | k in queues && 0 <= i < |queues[k]| && queues[k][i].Published? :: queues[k][i].at < now
  }

  /** A look-up stays right for the frame it was made for: whoever holds the slot by now and is not
      the receiver found was counted in after the frame was published, if at all. */
  ghost predicate Fresh(r: R.Roster, queues: W.Queues, hands: W.Hands) {
    forall k, x | k in hands && k in queues && queues[k] != [] && queues[k][0].Published?
      && R.Holds(r, x) && hands[k] in r.ids && r.ids[x] == r.ids[hands[k]] && x != hands[k] && x in r.presentAt
      && r.presentAt[x] > 0 :: r.presentAt[x] > queues[k][0].at
  }

  /** x and y are present counterparts, and y was counted in after x. */
  predicate Follows(r: R.Roster, x: PeerId, y: PeerId) {
    && x in r.ids && y in r.ids && x in r.phases && y in r.phases && x in r.presentAt && y in r.presentAt
    && r.ids[x].room == r.ids[y].room && r.ids[x].role == Opposite(r.ids[y].role)
    && r.phases[x].Present() && r.phases[y].Present()
    && r.presentAt[x] < r.presentAt[y]
  }

  /** The later of the two has been offered peer-ready, or is about to be. */
  ghost predicate SelfReady(r: R.Roster, offeredAt: map<PeerId, nat>) {
    forall x, y | Follows(r, x, y) && y in offeredAt :: r.phases[y].Greeting? || offeredAt[y] > r.presentAt[y]
  }

  function CarrierOf(c: R.Config, y: PeerId, inst: R.Inst): W.Carrier {
    if c.mode.InProcess? then W.ByPeer(y) else W.ByInstance(inst)
  }

  predicate IsReadyFor(id: R.Ident, since: nat, f: W.Frame) {
    f.Published? && f.env == READY && f.room == id.room && f.target == id.role && f.at > since
  }

  /** A peer-ready published after `since` for this slot is still on the carrier. */
  ghost predicate Underway(queues: W.Queues, k: W.Carrier, id: R.Ident, since: nat) {
    k in queues && exists i | 0 <= i < |queues[k]| :: IsReadyFor(id, since, queues[k][i])
  }

  /** The earlier one, once the later one has published and while it holds its slot, has been
      offered peer-ready, or it is underway. */
  ghost predicate PeerReady(c: R.Config, r: R.Roster, offeredAt: map<PeerId, nat>, queues: W.Queues) {
    forall x, y | Follows(r, x, y) && R.Holds(r, x) && x in offeredAt && !r.phases[y].Greeting? && !r.phases[y].Announcing? ::
      offeredAt[x] > r.presentAt[y] || Underway(queues, CarrierOf(c, y, r.ids[x].inst), r.ids[x], r.presentAt[y])
  }

  ghost predicate ReadyInv(c: R.Config, now: nat, r: R.Roster, w: W.Wire) {
    && Distinct(r.presentAt) && Stamped(now, w.queues) && Fresh(r, w.queues, w.hands)
    && SelfReady(r, w.offeredAt) && PeerReady(c, r, w.offeredAt, w.queues)
  }

  ghost predicate Inv(c: R.Config, s: State) {
    c.Valid() && R.Inv(c, s.now, s.r) && W.Inv(c, s.r.ids, s.w) && ReadyInv(c, s.now, s.r, s.w)
  }

  // --- steps of the roster ---

  /** Between these two rosters nobody was counted in, and no connection gained a slot or became
      present again. Covers Unslot, CountOut and the later tear-down. */
  ghost predicate Receding(r: R.Roster, r': R.Roster) {
    && r'.ids == r.ids && r'.presentAt == r.presentAt
    && r'.phases.Keys == r.phases.Keys
    && (forall p | R.Holds(r', p) :: R.Holds(r, p))
    && forall p | p in r.phases && r'.phases[p].Present() :: r.phases[p].Present() &&
         (r.phases[p].Greeting? ==> r'.phases[p].Greeting?) && (r.phases[p].Announcing? ==> r'.phases[p].Announcing?)
  }

  lemma RecedingSelf(r: R.Roster, r': R.Roster, offeredAt: map<PeerId, nat>)
    requires SelfReady(r, offeredAt) && Receding(r, r')
    ensures SelfReady(r', offeredAt)
  {
    forall x, y | Follows(r', x, y) ensures Follows(r, x, y) {}
  }

  lemma RecedingPeer(c: R.Config, r: R.Roster, r': R.Roster, offeredAt: map<PeerId, nat>, queues: W.Queues)
    requires PeerReady(c, r, offeredAt, queues) && Receding(r, r')
    ensures PeerReady(c, r', offeredAt, queues)
  {
    forall x, y | Follows(r', x, y) ensures Follows(r, x, y) {}
  }

  lemma RecedingFresh(r: R.Roster, r': R.Roster, queues: W.Queues, hands: W.Hands)
    requires Fresh(r, queues, hands) && Receding(r, r')
    ensures Fresh(r', queues, hands)
  {
  }

  lemma UnslotRecedes(c: R.Config, s: State, p: PeerId)
    requires InPhase(s, p, R.Live)
    ensures Receding(s.r, R.FreeSlot(s.r, p))
  {
    DropAt(s.r.hubs[s.r.ids[p].inst], s.r.ids[p].room, s.r.ids[p].role, p);
  }

  lemma CountOutRecedes(c: R.Config, r: R.Roster, p: PeerId, out: Outcome)
    requires p in r.ids && p in r.phases
    ensures Receding(r, R.CountOut(c, r, p, out))
  {
  }

  lemma TearDownRecedes(r: R.Roster, p: PeerId, phase: R.Phase)
    requires p in r.ids && p in r.phases && !phase.Present()
    ensures Receding(r, R.Goto(r, p, phase))
  {
  }

  // --- Register ---

  /** What registering p does to the roster, as far as peer-ready is concerned. */
  ghost predicate Enrolls(r: R.Roster, r': R.Roster, p: PeerId) {
    && p !in r.ids && p in r'.ids && r'.ids - {p} == r.ids
    && p in r'.presentAt && r'.presentAt[p] == 0 && r'.presentAt - {p} == r.presentAt
    && p in r'.phases && r'.phases[p].Registered? && r'.phases - {p} == r.phases
    && forall x | R.Holds(r', x) :: x == p || R.Holds(r, x)
  }

  lemma RegisterEnrolls(r: R.Roster, p: PeerId, id: R.Ident)
    requires p !in r.ids && p !in r.phases && p !in r.presentAt && id.inst in r.hubs
    ensures Enrolls(r, R.Enroll(r, p, id), p)
  {
    PutAt(r.hubs[id.inst], id.room, id.role, p);
  }

  lemma RegisterFresh(r: R.Roster, r': R.Roster, queues: W.Queues, hands: W.Hands, p: PeerId)
    requires Fresh(r, queues, hands) && Enrolls(r, r', p)
    requires forall k | k in hands :: k in queues && hands[k] in r.ids
    ensures Fresh(r', queues[W.ByPeer(p) := []], hands)
  {
  }

  lemma RegisterSelf(r: R.Roster, r': R.Roster, offeredAt: map<PeerId, nat>, p: PeerId)
    requires SelfReady(r, offeredAt) && Enrolls(r, r', p)
    ensures SelfReady(r', offeredAt[p := 0])
  {
    forall x, y | Follows(r', x, y) ensures x != p && y != p && Follows(r, x, y) {}
  }

  lemma RegisterPeer(c: R.Config, r: R.Roster, r': R.Roster, offeredAt: map<PeerId, nat>, queues: W.Queues, p: PeerId)
    requires PeerReady(c, r, offeredAt, queues) && Enrolls(r, r', p) && W.ByPeer(p) !in queues
    ensures PeerReady(c, r', offeredAt[p := 0], queues[W.ByPeer(p) := []])
  {
    forall x, y | Follows(r', x, y) && R.Holds(r', x) && x in offeredAt[p := 0]
      && !r'.phases[y].Greeting? && !r'.phases[y].Announcing?
      ensures offeredAt[p := 0][x] > r'.presentAt[y]
              || Underway(queues[W.ByPeer(p) := []], CarrierOf(c, y, r'.ids[x].inst), r'.ids[x], r'.presentAt[y])
    {
      assert x != p && y != p && Follows(r, x, y) && R.Holds(r, x);
      var k := CarrierOf(c, y, r.ids[x].inst);
      if !(offeredAt[x] > r.presentAt[y]) {
        assert Underway(queues, k, r.ids[x], r.presentAt[y]);
        assert k != W.ByPeer(p);
      }
    }
  }

  lemma StampedLater(now: nat, queues: W.Queues)
    requires Stamped(now, queues)
    ensures Stamped(now + 1, queues)
  {
  }

  lemma RegisterKeepsFresh(r: R.Roster, w: W.Wire, p: PeerId, id: R.Ident)
    requires Fresh(r, w.queues, w.hands) && W.HandInv(r.ids, w.queues, w.hands)
    requires p !in r.ids && p !in r.phases && p !in r.presentAt && id.inst in r.hubs
    ensures Fresh(R.Enroll(r, p, id), W.Attach(w, p).queues, w.hands)
  {
    RegisterEnrolls(r, p, id);
    HandsKnown(r.ids, w.queues, w.hands);
    RegisterFresh(r, R.Enroll(r, p, id), w.queues, w.hands, p);
  }

  lemma RegisterKeepsReady(c: R.Config, r: R.Roster, w: W.Wire, p: PeerId, id: R.Ident)
    requires SelfReady(r, w.offeredAt) && PeerReady(c, r, w.offeredAt, w.queues)
    requires p !in r.ids && p !in r.phases && p !in r.presentAt && id.inst in r.hubs && W.ByPeer(p) !in w.queues
    ensures SelfReady(R.Enroll(r, p, id), W.Attach(w, p).offeredAt)
    ensures PeerReady(c, R.Enroll(r, p, id), W.Attach(w, p).offeredAt, W.Attach(w, p).queues)
  {
    RegisterEnrolls(r, p, id);
    RegisterSelf(r, R.Enroll(r, p, id), w.offeredAt, p);
    RegisterPeer(c, r, R.Enroll(r, p, id), w.offeredAt, w.queues, p);
  }

  lemma RegisterKeepsTimes(now: nat, r: R.Roster, w: W.Wire, p: PeerId, id: R.Ident)
    requires Distinct(r.presentAt) && Stamped(now, w.queues) && id.inst in r.hubs
    ensures Distinct(R.Enroll(r, p, id).presentAt) && Stamped(now + 1, W.Attach(w, p).queues)
  {
  }

  lemma RegisterReady(c: R.Config, now: nat, r: R.Roster, w: W.Wire, p: PeerId, id: R.Ident)
    requires ReadyInv(c, now, r, w) && R.Shape(c, now, r) && W.Shape(c, r.ids, w) && W.HandInv(r.ids, w.queues, w.hands)
    requires p !in r.ids && id.inst in r.hubs
    ensures ReadyInv(c, now + 1, R.Enroll(r, p, id), W.Attach(w, p))
  {
    RegisterKeepsTimes(now, r, w, p, id);
    RegisterKeepsFresh(r, w, p, id);
    RegisterKeepsReady(c, r, w, p, id);
  }

  lemma HandsKnown(ids: W.Ids, queues: W.Queues, hands: W.Hands)
    requires W.HandInv(ids, queues, hands)
    ensures forall k | k in hands :: k in queues && hands[k] in ids
  {
  }

  // --- CountIn ---

  lemma CountInReady(c: R.Config, now: nat, r: R.Roster, w: W.Wire, p: PeerId)
    requires ReadyInv(c, now, r, w) && R.Shape(c, now, r) && R.LogInv(c, r)
    requires p in r.ids && r.phases[p].Registered? && now > 0
    ensures ReadyInv(c, now + 1, R.CountIn(r, p, now), w)
  {
    var r' := R.CountIn(r, p, now);
    StampedLater(now, w.queues);
    CountInNews(c, now, r, p);
    CountInSelf(r, r', w.offeredAt, p);
    CountInPeer(c, r, r', w.offeredAt, w.queues, p);
    CountInFresh(now, r, r', w.queues, w.hands, p);
  }

  /** Counting p in: nobody is newer than p, and if somebody faces p then p greets it. */
  ghost predicate CountsIn(r: R.Roster, r': R.Roster, p: PeerId) {
    && r'.ids == r.ids && r'.hubs == r.hubs
    && p in r'.phases && p in r.phases && r'.phases - {p} == r.phases - {p}
    && p in r'.presentAt && p in r.presentAt && r'.presentAt - {p} == r.presentAt - {p}
    && (forall q | q in r.presentAt :: r.presentAt[q] < r'.presentAt[p])
    && forall x | Follows(r', x, p) :: r'.phases[p].Greeting?
  }

  lemma CountInNews(c: R.Config, now: nat, r: R.Roster, p: PeerId)
    requires R.Shape(c, now, r) && R.LogInv(c, r) && p in r.ids && r.phases[p].Registered? && now > 0
    ensures CountsIn(r, R.CountIn(r, p, now), p)
  {
    var r' := R.CountIn(r, p, now);
    CountInGreetsAll(c, now, r, p);
    assert r'.phases - {p} == r.phases - {p};
    assert r'.presentAt - {p} == r.presentAt - {p};
  }

  lemma CountInGreetsAll(c: R.Config, now: nat, r: R.Roster, p: PeerId)
    requires r.phases.Keys == r.ids.Keys && R.LogInv(c, r) && p in r.ids && r.phases[p].Registered?
    ensures var r' := R.CountIn(r, p, now); forall x | Follows(r', x, p) :: r'.phases[p].Greeting?
  {
    var r' := R.CountIn(r, p, now);
    forall x | Follows(r', x, p)
      ensures r'.phases[p].Greeting?
    {
      CountInGreets(c, now, r, p, x);
    }
  }

  lemma CountInGreets(c: R.Config, now: nat, r: R.Roster, p: PeerId, x: PeerId)
    requires r.phases.Keys == r.ids.Keys && R.LogInv(c, r) && p in r.ids && r.phases[p].Registered?
    requires x in r.ids && r.ids[x].room == r.ids[p].room && r.ids[x].role == Opposite(r.ids[p].role) && r.phases[x].Present()
    ensures R.CountIn(r, p, now).phases[p].Greeting?
  {
    R.CountInSeesCounterpart(c, r, p, now);
    assert x in R.Occupants(r, r.ids[p].room, Opposite(r.ids[p].role));
  }

  lemma CountInFollows(r: R.Roster, r': R.Roster, p: PeerId, x: PeerId, y: PeerId)
    requires CountsIn(r, r', p) && Follows(r', x, y)
    ensures y == p || (x != p && Follows(r, x, y))
  {
    if y != p {
      assert y in r'.presentAt - {p} && y in r'.phases - {p};
      assert x != p;
      assert x in r'.presentAt - {p} && x in r'.phases - {p};
    }
  }

  lemma CountInSelf(r: R.Roster, r': R.Roster, offeredAt: map<PeerId, nat>, p: PeerId)
    requires SelfReady(r, offeredAt) && CountsIn(r, r', p)
    ensures SelfReady(r', offeredAt)
  {
    forall x, y | Follows(r', x, y) && y in offeredAt
      ensures r'.phases[y].Greeting? || offeredAt[y] > r'.presentAt[y]
    {
      CountInFollows(r, r', p, x, y);
      if y != p { assert y in r'.presentAt - {p} && y in r'.phases - {p}; }
    }
  }

  lemma CountInPeer(c: R.Config, r: R.Roster, r': R.Roster, offeredAt: map<PeerId, nat>, queues: W.Queues, p: PeerId)
    requires PeerReady(c, r, offeredAt, queues) && CountsIn(r, r', p)
    ensures PeerReady(c, r', offeredAt, queues)
  {
    forall x, y | Follows(r', x, y) && R.Holds(r', x) && x in offeredAt && !r'.phases[y].Greeting? && !r'.phases[y].Announcing?
      ensures offeredAt[x] > r'.presentAt[y] || Underway(queues, CarrierOf(c, y, r'.ids[x].inst), r'.ids[x], r'.presentAt[y])
    {
      CountInFollows(r, r', p, x, y);
      assert y != p && y in r'.presentAt - {p} && y in r'.phases - {p};
      assert R.Holds(r, x);
    }
  }

  lemma CountInFresh(now: nat, r: R.Roster, r': R.Roster, queues: W.Queues, hands: W.Hands, p: PeerId)
    requires Fresh(r, queues, hands) && Stamped(now, queues) && CountsIn(r, r', p) && r'.presentAt[p] == now
    ensures Fresh(r', queues, hands)
  {
    forall k, x | k in hands && k in queues && queues[k] != [] && queues[k][0].Published?
      && R.Holds(r', x) && hands[k] in r'.ids && r'.ids[x] == r'.ids[hands[k]] && x != hands[k] && x in r'.presentAt
      && r'.presentAt[x] > 0
      ensures r'.presentAt[x] > queues[k][0].at
    {
      if x != p {
        assert x in r'.presentAt - {p} && R.Holds(r, x);
      }
    }
  }

  // --- Publish ---

  lemma UnderwayMore(c: R.Config, queues: W.Queues, p: PeerId, f: W.Frame, k: W.Carrier, id: R.Ident, since: nat)
    requires Underway(queues, k, id, since)
    ensures Underway(W.Append(c, queues, p, f), k, id, since)
  {
    var i :| 0 <= i < |queues[k]| && IsReadyFor(id, since, queues[k][i]);
    assert W.Append(c, queues, p, f)[k][i] == queues[k][i];
  }

  /** p publishes and passes from one phase to the next: peer-ready if it was announcing. */
  lemma PublishPeer(c: R.Config, now: nat, r: R.Roster, phase: R.Phase, offeredAt: map<PeerId, nat>, queues: W.Queues, p: PeerId, f: W.Frame)
    requires c.Valid() && R.Shape(c, now, r) && PeerReady(c, r, offeredAt, queues)
    requires forall k :: k in queues <==> if k.ByPeer? then k.peer in r.ids else k.inst in c.instances
    requires p in r.ids && !r.phases[p].Greeting? && (phase.Present() ==> r.phases[p].Present())
    requires f.Published? && f.at == now && f.room == r.ids[p].room && f.target == Opposite(r.ids[p].role)
    requires r.phases[p].Announcing? ==> f.env == READY
    ensures PeerReady(c, R.Goto(r, p, phase), offeredAt, W.Append(c, queues, p, f))
  {
    var r', queues' := R.Goto(r, p, phase), W.Append(c, queues, p, f);
    forall x, y | Follows(r', x, y) && R.Holds(r', x) && x in offeredAt && !r'.phases[y].Greeting? && !r'.phases[y].Announcing?
      ensures offeredAt[x] > r'.presentAt[y] || Underway(queues', CarrierOf(c, y, r'.ids[x].inst), r'.ids[x], r'.presentAt[y])
    {
      var k, since := CarrierOf(c, y, r.ids[x].inst), r.presentAt[y];
      assert Follows(r, x, y) && R.Holds(r, x);
      if y == p && r.phases[p].Announcing? {
        assert queues'[k][|queues[k]|] == f;
        assert IsReadyFor(r.ids[x], since, queues'[k][|queues[k]|]);
      } else if Underway(queues, k, r.ids[x], since) {
        UnderwayMore(c, queues, p, f, k, r.ids[x], since);
      }
    }
  }

  lemma PublishFresh(c: R.Config, r: R.Roster, phase: R.Phase, queues: W.Queues, hands: W.Hands, p: PeerId, f: W.Frame)
    requires Fresh(r, queues, hands) && W.HandInv(r.ids, queues, hands)
    ensures Fresh(R.Goto(r, p, phase), W.Append(c, queues, p, f), hands)
  {
  }

  lemma PublishStamped(c: R.Config, now: nat, queues: W.Queues, p: PeerId, f: W.Frame)
    requires Stamped(now, queues) && f.Published? && f.at == now
    ensures Stamped(now + 1, W.Append(c, queues, p, f))
  {
  }

  lemma GotoSelf(r: R.Roster, p: PeerId, phase: R.Phase, offeredAt: map<PeerId, nat>)
    requires SelfReady(r, offeredAt) && p in r.phases && (phase.Present() ==> r.phases[p].Present())
    requires r.phases[p].Greeting? && p in offeredAt && p in r.presentAt ==> phase.Greeting? || offeredAt[p] > r.presentAt[p]
    ensures SelfReady(R.Goto(r, p, phase), offeredAt)
  {
    forall x, y | Follows(R.Goto(r, p, phase), x, y) ensures Follows(r, x, y) {}
  }

  lemma PublishReady(c: R.Config, now: nat, r: R.Roster, w: W.Wire, p: PeerId, env: Envelope, phase: R.Phase)
    requires c.Valid() && R.Shape(c, now, r) && W.Shape(c, r.ids, w) && W.HandInv(r.ids, w.queues, w.hands) && ReadyInv(c, now, r, w)
    requires p in r.ids && !r.phases[p].Greeting? && (phase.Present() ==> r.phases[p].Present())
    requires r.phases[p].Announcing? ==> env == READY
    ensures ReadyInv(c, now + 1, R.Goto(r, p, phase), W.Publish(c, r.ids, w, p, now, env))
  {
    var f := W.FrameOf(r.ids, w.sent, p, now, env);
    PublishStamped(c, now, w.queues, p, f);
    PublishFresh(c, r, phase, w.queues, w.hands, p, f);
    GotoSelf(r, p, phase, w.offeredAt);
    PublishPeer(c, now, r, phase, w.offeredAt, w.queues, p, f);
  }

  // --- Send on a box ---

  lemma OfferedSelf(r: R.Roster, p: PeerId, phase: R.Phase, offeredAt: map<PeerId, nat>, now: nat)
    requires SelfReady(r, offeredAt) && p in r.phases && (phase.Present() ==> r.phases[p].Present())
    requires forall q | q in r.presentAt :: r.presentAt[q] < now
    ensures SelfReady(R.Goto(r, p, phase), offeredAt[p := now])
  {
    forall x, y | Follows(R.Goto(r, p, phase), x, y) ensures Follows(r, x, y) {}
  }

  /** An offer never unmakes a promise. */
  lemma OfferedPeer(c: R.Config, r: R.Roster, p: PeerId, phase: R.Phase, offeredAt: map<PeerId, nat>, queues: W.Queues, now: nat)
    requires PeerReady(c, r, offeredAt, queues) && p in r.phases && (phase.Present() ==> r.phases[p].Present())
    requires r.phases[p].Greeting? || r.phases[p].Announcing? ==> phase.Greeting? || phase.Announcing?
    requires forall q | q in r.presentAt :: r.presentAt[q] < now
    requires p in offeredAt
    ensures PeerReady(c, R.Goto(r, p, phase), offeredAt[p := now], queues)
    ensures PeerReady(c, R.Goto(r, p, phase), offeredAt, queues)
  {
    forall x, y | Follows(R.Goto(r, p, phase), x, y) ensures Follows(r, x, y) {}
  }

  lemma GotoFresh(r: R.Roster, p: PeerId, phase: R.Phase, queues: W.Queues, hands: W.Hands)
    requires Fresh(r, queues, hands)
    ensures Fresh(R.Goto(r, p, phase), queues, hands)
  {
  }

  lemma OfferReady(c: R.Config, now: nat, r: R.Roster, w: W.Wire, p: PeerId, f: W.Frame, phase: R.Phase)
    requires R.Shape(c, now, r) && W.Shape(c, r.ids, w) && ReadyInv(c, now, r, w) && now > 0
    requires p in r.ids && (phase == r.phases[p] || (r.phases[p].Greeting? && phase.Announcing? && f.env == READY))
    ensures ReadyInv(c, now + 1, R.Goto(r, p, phase), W.Offer(w, p, f, now))
  {
    StampedLater(now, w.queues);
    GotoFresh(r, p, phase, w.queues, w.hands);
    OfferedPeer(c, r, p, phase, w.offeredAt, w.queues, now);
    if f.env == READY {
      OfferedSelf(r, p, phase, w.offeredAt, now);
    } else {
      GotoSelf(r, p, phase, w.offeredAt);
    }
  }

  // --- the carriers ---

  lemma CarrierLooksThere(c: R.Config, r: R.Roster, x: PeerId, y: PeerId)
    requires c.Valid() && x in r.ids && y in r.ids && r.ids[x].inst in c.instances && r.ids[y].inst in c.instances
    ensures W.Where(r.ids, CarrierOf(c, y, r.ids[x].inst)) == r.ids[x].inst
  {
  }

  /** The frame at the head of k may go once its receiver has been offered what it was promised. */
  lemma DropHeadPeer(c: R.Config, now: nat, r: R.Roster, before: map<PeerId, nat>, after: map<PeerId, nat>, queues: W.Queues, k: W.Carrier)
    requires PeerReady(c, r, before, queues) && k in queues && queues[k] != []
    requires after.Keys == before.Keys && forall q | q in before :: after[q] == before[q] || after[q] == now
    requires forall q | q in r.presentAt :: r.presentAt[q] < now
    requires forall x, y | Follows(r, x, y) && R.Holds(r, x) && x in after && k == CarrierOf(c, y, r.ids[x].inst)
               && IsReadyFor(r.ids[x], r.presentAt[y], queues[k][0]) :: after[x] == now
    ensures PeerReady(c, r, after, queues[k := queues[k][1..]])
  {
    var queues': W.Queues := queues[k := queues[k][1..]];
    forall x, y | Follows(r, x, y) && R.Holds(r, x) && x in after && !r.phases[y].Greeting? && !r.phases[y].Announcing?
      ensures after[x] > r.presentAt[y] || Underway(queues', CarrierOf(c, y, r.ids[x].inst), r.ids[x], r.presentAt[y])
    {
      var l := CarrierOf(c, y, r.ids[x].inst);
      if after[x] <= r.presentAt[y] {
        assert Underway(queues, l, r.ids[x], r.presentAt[y]);
        var i :| 0 <= i < |queues[l]| && IsReadyFor(r.ids[x], r.presentAt[y], queues[l][i]);
        if l == k {
          assert i > 0 && queues'[l][i - 1] == queues[l][i];
        } else {
          assert queues'[l][i] == queues[l][i];
        }
      }
    }
  }

  lemma DropHeadStamped(now: nat, queues: W.Queues, k: W.Carrier)
    requires Stamped(now, queues) && k in queues && queues[k] != []
    ensures Stamped(now + 1, queues[k := queues[k][1..]])
  {
  }

  lemma DropHeadFresh(r: R.Roster, queues: W.Queues, hands: W.Hands, k: W.Carrier)
    requires Fresh(r, queues, hands) && k in queues && queues[k] != []
    ensures Fresh(r, queues[k := queues[k][1..]], hands - {k})
  {
  }

  lemma Misses(c: R.Config, now: nat, r: R.Roster, queues: W.Queues, k: W.Carrier, x: PeerId, y: PeerId)
    requires c.Valid() && R.Shape(c, now, r) && k in queues && queues[k] != [] && Follows(r, x, y) && R.Holds(r, x)
    requires k == CarrierOf(c, y, r.ids[x].inst) && IsReadyFor(r.ids[x], r.presentAt[y], queues[k][0])
    ensures W.Where(r.ids, k) in r.hubs && At(r.hubs[W.Where(r.ids, k)], queues[k][0].room, queues[k][0].target) == Some(x)
  {
    CarrierLooksThere(c, r, x, y);
  }

  lemma PickUpNone(c: R.Config, now: nat, r: R.Roster, w: W.Wire, k: W.Carrier)
    requires c.Valid() && R.Shape(c, now, r) && ReadyInv(c, now, r, w) && now > 0
    requires k in w.queues && w.queues[k] != [] && k !in w.hands && w.queues[k][0].Published? && (k.ByPeer? ==> k.peer in r.ids)
    requires W.Where(r.ids, k) in r.hubs && At(r.hubs[W.Where(r.ids, k)], w.queues[k][0].room, w.queues[k][0].target).None?
    ensures ReadyInv(c, now + 1, r, W.PickUp(w, k, None))
  {
    DropHeadStamped(now, w.queues, k);
    DropHeadFresh(r, w.queues, w.hands, k);
    assert w.hands - {k} == w.hands;
    forall x, y
      ensures !(Follows(r, x, y) && R.Holds(r, x) && k == CarrierOf(c, y, r.ids[x].inst)
                && IsReadyFor(r.ids[x], r.presentAt[y], w.queues[k][0]))
    {
      if Follows(r, x, y) && R.Holds(r, x) && k == CarrierOf(c, y, r.ids[x].inst)
         && IsReadyFor(r.ids[x], r.presentAt[y], w.queues[k][0]) {
        Misses(c, now, r, w.queues, k, x, y);
      }
    }
    DropHeadPeer(c, now, r, w.offeredAt, w.offeredAt, w.queues, k);
  }

  lemma PickUpSome(c: R.Config, now: nat, r: R.Roster, w: W.Wire, k: W.Carrier, to: PeerId)
    requires ReadyInv(c, now, r, w) && W.HandOk(r.ids, w.queues, k, to)
    requires W.Where(r.ids, k) in r.hubs && At(r.hubs[W.Where(r.ids, k)], w.queues[k][0].room, w.queues[k][0].target) == Some(to)
    ensures ReadyInv(c, now + 1, r, W.PickUp(w, k, Some(to)))
  {
    StampedLater(now, w.queues);
  }

  lemma HandOverReady(c: R.Config, now: nat, r: R.Roster, w: W.Wire, k: W.Carrier)
    requires c.Valid() && R.Shape(c, now, r) && W.Shape(c, r.ids, w) && ReadyInv(c, now, r, w) && now > 0
    requires k in w.hands && W.HandOk(r.ids, w.queues, k, w.hands[k])
    ensures ReadyInv(c, now + 1, r, W.HandOver(w, k, now))
  {
    var to, f := w.hands[k], w.queues[k][0];
    var offered := if f.env == READY then w.offeredAt[to := now] else w.offeredAt;
    DropHeadStamped(now, w.queues, k);
    DropHeadFresh(r, w.queues, w.hands, k);
    HandOverPeer(c, now, r, w.offeredAt, w.queues, w.hands, k);
    HandOverSelf(now, r, w.offeredAt, to, f);
  }

  lemma HandOverSelf(now: nat, r: R.Roster, offeredAt: map<PeerId, nat>, to: PeerId, f: W.Frame)
    requires SelfReady(r, offeredAt) && forall q | q in r.presentAt :: r.presentAt[q] < now
    ensures SelfReady(r, if f.env == READY then offeredAt[to := now] else offeredAt)
  {
  }

  lemma HandOverPeer(c: R.Config, now: nat, r: R.Roster, offeredAt: map<PeerId, nat>, queues: W.Queues, hands: W.Hands, k: W.Carrier)
    requires c.Valid() && R.Shape(c, now, r) && Fresh(r, queues, hands) && PeerReady(c, r, offeredAt, queues) && now > 0
    requires k in hands && W.HandOk(r.ids, queues, k, hands[k]) && hands[k] in offeredAt
    ensures PeerReady(c, r, if queues[k][0].env == READY then offeredAt[hands[k] := now] else offeredAt, queues[k := queues[k][1..]])
  {
    var to, f := hands[k], queues[k][0];
    var offered := if f.env == READY then offeredAt[to := now] else offeredAt;
    forall x, y | Follows(r, x, y) && R.Holds(r, x) && x in offered && k == CarrierOf(c, y, r.ids[x].inst)
      && IsReadyFor(r.ids[x], r.presentAt[y], f)
      ensures offered[x] == now
    {
      CarrierLooksThere(c, r, x, y);
      assert r.ids[x] == r.ids[to];
    }
    DropHeadPeer(c, now, r, offeredAt, offered, queues, k);
  }

  // --- the tear-down ---

  lemma RecedingReady(c: R.Config, now: nat, r: R.Roster, r': R.Roster, w: W.Wire)
    requires ReadyInv(c, now, r, w) && Receding(r, r')
    ensures ReadyInv(c, now + 1, r', w)
  {
    StampedLater(now, w.queues);
    RecedingFresh(r, r', w.queues, w.hands);
    RecedingSelf(r, r', w.offeredAt);
    RecedingPeer(c, r, r', w.offeredAt, w.queues);
  }

  lemma BoxReady(c: R.Config, now: nat, r: R.Roster, w: W.Wire, p: PeerId, b: Box<W.Frame>)
    requires ReadyInv(c, now, r, w)
    ensures ReadyInv(c, now, r, W.WithBox(w, p, b))
  {
  }

  // ---------- every run ----------

  lemma GotoSame(r: R.Roster, p: PeerId)
    requires p in r.phases
    ensures R.Goto(r, p, r.phases[p]) == r
  {
  }

  lemma DeliverReady(c: R.Config, s: State, k: W.Carrier)
    requires Inv(c, s) && Enabled(c, s, Deliver(k))
    ensures ReadyInv(c, s.now + 1, s.r, W.PickUp(s.w, k, Receiver(s, k)))
  {
    if Receiver(s, k).Some? {
      ReceiverOk(c, s, k);
      PickUpSome(c, s.now, s.r, s.w, k, Receiver(s, k).value);
    } else {
      PickUpNone(c, s.now, s.r, s.w, k);
    }
  }

  lemma TearDownReady(c: R.Config, s: State, step: Step)
    requires ReadyInv(c, s.now, s.r, s.w) && Enabled(c, s, step)
    requires step.Unslot? || step.CountOut? || step.Signal? || step.CloseSend? || step.Take?
    ensures ReadyInv(c, s.now + 1, RosterAfter(c, s, step), WireAfter(c, s, step))
  {
    match step {
      case Unslot(p) => UnslotRecedes(c, s, p); RecedingReady(c, s.now, s.r, R.FreeSlot(s.r, p), s.w);
      case CountOut(p, out) => CountOutRecedes(c, s.r, p, out); RecedingReady(c, s.now, s.r, R.CountOut(c, s.r, p, out), s.w);
      case Signal(p) => TearDownRecedes(s.r, p, R.Left); RecedingReady(c, s.now, s.r, R.Goto(s.r, p, R.Left), s.w);
      case CloseSend(p) => CloseReady(c, s.now, s.r, s.w, p);
      case Take(p) =>
        StampedLater(s.now, s.w.queues);
        BoxReady(c, s.now + 1, s.r, s.w, p, s.w.boxes[p].Take());
    }
  }

  lemma CloseReady(c: R.Config, now: nat, r: R.Roster, w: W.Wire, p: PeerId)
    requires ReadyInv(c, now, r, w) && p in r.ids && p in r.phases && p in w.boxes
    ensures ReadyInv(c, now + 1, R.Goto(r, p, R.Closed), W.WithBox(w, p, w.boxes[p].Close()))
  {
    TearDownRecedes(r, p, R.Closed);
    RecedingReady(c, now, r, R.Goto(r, p, R.Closed), w);
    BoxReady(c, now + 1, R.Goto(r, p, R.Closed), w, p, w.boxes[p].Close());
  }

  lemma RelayReady(c: R.Config, now: nat, r: R.Roster, w: W.Wire, p: PeerId, env: Envelope)
    requires c.Valid() && R.Shape(c, now, r) && W.Shape(c, r.ids, w) && W.HandInv(r.ids, w.queues, w.hands) && ReadyInv(c, now, r, w)
    requires p in r.ids && r.phases[p].Live?
    ensures ReadyInv(c, now + 1, r, W.Publish(c, r.ids, w, p, now, env))
  {
    PublishReady(c, now, r, w, p, env, R.Live);
    GotoSame(r, p);
  }

  lemma ByeReady(c: R.Config, now: nat, r: R.Roster, w: W.Wire, p: PeerId, env: Envelope)
    requires c.Valid() && R.Shape(c, now, r) && W.Shape(c, r.ids, w) && W.HandInv(r.ids, w.queues, w.hands) && ReadyInv(c, now, r, w)
    requires p in r.ids && r.phases[p].Closed?
    ensures ReadyInv(c, now + 1, R.Goto(r, p, R.Gone), W.Publish(c, r.ids, w, p, now, env))
  {
    PublishReady(c, now, r, w, p, env, R.Gone);
  }

  lemma PublishStepReady(c: R.Config, s: State, step: Step)
    requires Inv(c, s) && Enabled(c, s, step) && (step.Announce? || step.Relay? || step.SayBye?)
    ensures ReadyInv(c, s.now + 1, RosterAfter(c, s, step), WireAfter(c, s, step))
  {
    match step {
      case Announce(p) => PublishReady(c, s.now, s.r, s.w, p, READY, R.Live);
      case Relay(p, kind, payload) => RelayReady(c, s.now, s.r, s.w, p, Envelope(kind, Some(s.r.ids[p].role), payload));
      case SayBye(p) => ByeReady(c, s.now, s.r, s.w, p, Bye(s.r.ids[p].role));
    }
  }

  lemma CarrierReady(c: R.Config, s: State, step: Step)
    requires Inv(c, s) && Enabled(c, s, step) && (step.Deliver? || step.Send?)
    ensures ReadyInv(c, s.now + 1, RosterAfter(c, s, step), WireAfter(c, s, step))
  {
    match step {
      case Deliver(k) => DeliverReady(c, s, k);
      case Send(k) => HandOverReady(c, s.now, s.r, s.w, k);
    }
  }

  lemma EntryReady(c: R.Config, s: State, step: Step)
    requires Inv(c, s) && Enabled(c, s, step) && (step.Register? || step.CountIn? || step.Greet? || step.Reject?)
    ensures ReadyInv(c, s.now + 1, RosterAfter(c, s, step), WireAfter(c, s, step))
  {
    match step {
      case Register(p, id) => RegisterReady(c, s.now, s.r, s.w, p, id);
      case CountIn(p) => CountInReady(c, s.now, s.r, s.w, p);
      case Greet(p) => OfferReady(c, s.now, s.r, s.w, p, W.Own(READY), R.Announcing);
      case Reject(p) => OfferReady(c, s.now, s.r, s.w, p, W.Own(MALFORMED), R.Live); GotoSame(s.r, p);
    }
  }

  lemma ReadyStep(c: R.Config, s: State, step: Step)
    requires Inv(c, s) && Enabled(c, s, step)
    ensures ReadyInv(c, s.now + 1, RosterAfter(c, s, step), WireAfter(c, s, step))
  {
    if step.Register? || step.CountIn? || step.Greet? || step.Reject? {
      EntryReady(c, s, step);
    } else if step.Announce? || step.Relay? || step.SayBye? {
      PublishStepReady(c, s, step);
    } else if step.Deliver? || step.Send? {
      CarrierReady(c, s, step);
    } else {
      TearDownReady(c, s, step);
    }
  }

  lemma StepInv(c: R.Config, s: State, step: Step)
    requires Inv(c, s) && Enabled(c, s, step)
    ensures Inv(c, Apply(c, s, step))
  {
    RosterStep(c, s, step);
    WireStep(c, s, step);
    ReadyStep(c, s, step);
  }

  lemma {:induction false} RunInv(c: R.Config, run: seq<Step>)
    requires c.Valid() && ValidRun(c, run)
    ensures Inv(c, After(c, run))
  {
    if run == [] {
      R.InitInv(c);
      W.InitInv(c);
    } else {
      RunInv(c, run[..|run| - 1]);
      StepInv(c, After(c, run[..|run| - 1]), run[|run| - 1]);
    }
  }

  /** p has been offered peer-ready since then, or, with pub/sub, it waits at p's instance. */
  ghost predicate Told(c: R.Config, s: State, p: PeerId, since: nat) {
    && p in s.r.ids && p in s.w.offeredAt
    && (s.w.offeredAt[p] > since
        || (c.mode.PubSub? && Underway(s.w.queues, W.ByInstance(s.r.ids[p].inst), s.r.ids[p], since)))
  }

  /** No lost peer-ready: in every state of every run, an agent and a phone that hold their slots of
      one room and have both finished Join have both been told since both are present. */
  lemma NoLostPeerReady(c: R.Config, run: seq<Step>, a: PeerId, b: PeerId)
    requires c.Valid() && ValidRun(c, run)
    requires var s := After(c, run);
             && InPhase(s, a, R.Live) && InPhase(s, b, R.Live) && R.Holds(s.r, a) && R.Holds(s.r, b)
             && s.r.ids[a].room == s.r.ids[b].room && s.r.ids[a].role == Agent && s.r.ids[b].role == Phone
    ensures var s := After(c, run);
            && a in s.r.presentAt && b in s.r.presentAt
            && Told(c, s, a, s.r.presentAt[a]) && Told(c, s, a, s.r.presentAt[b])
            && Told(c, s, b, s.r.presentAt[a]) && Told(c, s, b, s.r.presentAt[b])
  {
    RunInv(c, run);
    TellsWhoever(c, After(c, run), a, b);
  }

  lemma TellsWhoever(c: R.Config, s: State, a: PeerId, b: PeerId)
    requires R.Shape(c, s.now, s.r) && W.Shape(c, s.r.ids, s.w) && ReadyInv(c, s.now, s.r, s.w)
    requires InPhase(s, a, R.Live) && InPhase(s, b, R.Live) && R.Holds(s.r, a) && R.Holds(s.r, b)
    requires s.r.ids[a].room == s.r.ids[b].room && s.r.ids[a].role == Agent && s.r.ids[b].role == Phone
    ensures Told(c, s, a, s.r.presentAt[a]) && Told(c, s, a, s.r.presentAt[b])
    ensures Told(c, s, b, s.r.presentAt[a]) && Told(c, s, b, s.r.presentAt[b])
  {
    if s.r.presentAt[a] < s.r.presentAt[b] {
      TellsBoth(c, s, a, b);
    } else {
      assert s.r.presentAt[a] != s.r.presentAt[b];
      TellsBoth(c, s, b, a);
    }
  }

  lemma TellsBoth(c: R.Config, s: State, x: PeerId, y: PeerId)
    requires R.Shape(c, s.now, s.r) && W.Shape(c, s.r.ids, s.w) && ReadyInv(c, s.now, s.r, s.w)
    requires InPhase(s, x, R.Live) && InPhase(s, y, R.Live) && R.Holds(s.r, x) && Follows(s.r, x, y)
    ensures Told(c, s, x, s.r.presentAt[x]) && Told(c, s, x, s.r.presentAt[y])
    ensures Told(c, s, y, s.r.presentAt[x]) && Told(c, s, y, s.r.presentAt[y])
  {
    var k := CarrierOf(c, y, s.r.ids[x].inst);
    if Underway(s.w.queues, k, s.r.ids[x], s.r.presentAt[y]) {
      var i :| 0 <= i < |s.w.queues[k]| && IsReadyFor(s.r.ids[x], s.r.presentAt[y], s.w.queues[k][i]);
      assert IsReadyFor(s.r.ids[x], s.r.presentAt[x], s.w.queues[k][i]);
    }
  }

  // --- the slot is the latest joiner ---

  function LastToRegister(run: seq<Step>, id: R.Ident): Option<PeerId> {
    if run == [] then None
    else
      var step := run[|run| - 1];
      if step.Register? && step.id == id then Some(step.p) else LastToRegister(run[..|run| - 1], id)
  }

  ghost predicate RemembersNewest(run: seq<Step>, newest: map<R.Ident, PeerId>) {
    forall id :: LastToRegister(run, id) == if id in newest then Some(newest[id]) else None
  }

  ghost predicate RemembersLeft(run: seq<Step>, phases: map<PeerId, R.Phase>) {
    forall p :: Unslot(p) in run <==> p in phases && !phases[p].HasSlot()
  }

  /** A roster remembers the run: who registered last, and who has run Leave's critical section. */
  ghost predicate Remembers(run: seq<Step>, r: R.Roster) {
    RemembersNewest(run, r.newest) && RemembersLeft(run, r.phases)
  }

  lemma NewestStep(c: R.Config, run: seq<Step>, s: State, step: Step)
    requires RemembersNewest(run, s.r.newest) && Enabled(c, s, step)
    ensures RemembersNewest(run + [step], RosterAfter(c, s, step).newest)
  {
    assert (run + [step])[..|run|] == run;
  }

  lemma LeftStep(c: R.Config, run: seq<Step>, s: State, step: Step)
    requires RemembersLeft(run, s.r.phases) && Enabled(c, s, step) && s.r.phases.Keys == s.r.ids.Keys
    ensures RemembersLeft(run + [step], RosterAfter(c, s, step).phases)
  {
    var phases' := RosterAfter(c, s, step).phases;
    assert forall p :: p in phases' && !phases'[p].HasSlot() <==> (p in s.r.phases && !s.r.phases[p].HasSlot()) || step == Unslot(p);
    forall p ensures Unslot(p) in run + [step] <==> Unslot(p) in run || step == Unslot(p) {}
  }

  lemma RemembersStep(c: R.Config, run: seq<Step>, s: State, step: Step)
    requires Remembers(run, s.r) && Enabled(c, s, step) && s.r.phases.Keys == s.r.ids.Keys
    ensures Remembers(run + [step], RosterAfter(c, s, step))
  {
    NewestStep(c, run, s, step);
    LeftStep(c, run, s, step);
  }

  lemma {:induction false} RunRemembers(c: R.Config, run: seq<Step>)
    requires c.Valid() && ValidRun(c, run)
    ensures Remembers(run, After(c, run).r)
  {
    if run != [] {
      var before := run[..|run| - 1];
      RunRemembers(c, before);
      assert After(c, before).r.phases.Keys == After(c, before).r.ids.Keys by { RunInv(c, before); }
      RemembersStep(c, before, After(c, before), run[|run| - 1]);
      assert run == before + [run[|run| - 1]];
    }
  }

  /** After any run, a slot holds the connection that registered there last, if it has not run
      Leave, and else nobody: a stale Leave evicts no newer peer, and no older peer comes back. */
  lemma SlotIsLatestJoiner(c: R.Config, run: seq<Step>, id: R.Ident)
    requires c.Valid() && ValidRun(c, run) && id.inst in c.instances
    ensures var s := After(c, run);
            && id.inst in s.r.hubs && NoEmptyRoom(s.r.hubs[id.inst])
            && At(s.r.hubs[id.inst], id.room, id.role) ==
               match LastToRegister(run, id)
               case None => None
               case Some(p) => if Unslot(p) in run then None else Some(p)
  {
    RunInv(c, run);
    RunRemembers(c, run);
    SlotHolder(c, After(c, run), id);
  }

  lemma SlotHolder(c: R.Config, s: State, id: R.Ident)
    requires R.Shape(c, s.now, s.r) && R.SlotsInv(s.r) && id.inst in c.instances
    ensures At(s.r.hubs[id.inst], id.room, id.role) ==
            if id in s.r.newest && s.r.phases[s.r.newest[id]].HasSlot() then Some(s.r.newest[id]) else None
  {
    assert R.Ident(id.room, id.role, id.inst) == id;
  }

  /** Nobody holds the role in the room, on any instance. */
  ghost predicate RoleIsGone(s: State, room: RoomId, role: Role) {
    forall i | i in s.r.hubs :: At(s.r.hubs[i], room, role) == None
  }

  /** The last to register for the slot, if any, has left it. */
  predicate LastHasLeft(run: seq<Step>, id: R.Ident) {
    match LastToRegister(run, id)
    case None => true
    case Some(p) => Unslot(p) in run
  }

  /** A role is gone exactly if, on every instance, the last connection to register there has left. */
  lemma RoleIsGoneExactly(c: R.Config, run: seq<Step>, room: RoomId, role: Role)
    requires c.Valid() && ValidRun(c, run)
    ensures RoleIsGone(After(c, run), room, role) <==> forall i | i in c.instances :: LastHasLeft(run, R.Ident(room, role, i))
  {
    RunInv(c, run);
    var s := After(c, run);
    assert s.r.hubs.Keys == c.instances;
    forall i | i in c.instances
      ensures At(s.r.hubs[i], room, role) == None <==> LastHasLeft(run, R.Ident(room, role, i))
    {
      SlotIsLatestJoiner(c, run, R.Ident(room, role, i));
    }
  }

  ghost predicate RemembersByes(run: seq<Step>, r: R.Roster) {
    forall p :: SayBye(p) in run ==> p in r.phases && r.phases[p].Gone?
  }

  lemma ByesStep(c: R.Config, run: seq<Step>, s: State, step: Step)
    requires RemembersByes(run, s.r) && Enabled(c, s, step) && s.r.phases.Keys == s.r.ids.Keys
    ensures RemembersByes(run + [step], RosterAfter(c, s, step))
  {
    var phases' := RosterAfter(c, s, step).phases;
    assert forall p :: p in s.r.phases && s.r.phases[p].Gone? ==> p in phases' && phases'[p].Gone?;
    forall p ensures SayBye(p) in run + [step] <==> SayBye(p) in run || step == SayBye(p) {}
  }

  lemma {:induction false} RunRemembersByes(c: R.Config, run: seq<Step>)
    requires c.Valid() && ValidRun(c, run)
    ensures RemembersByes(run, After(c, run).r)
  {
    if run != [] {
      var before := run[..|run| - 1];
      RunRemembersByes(c, before);
      assert After(c, before).r.phases.Keys == After(c, before).r.ids.Keys by { RunInv(c, before); }
      ByesStep(c, before, After(c, before), run[|run| - 1]);
      assert run == before + [run[|run| - 1]];
    }
  }

  /** After a bye its sender holds no slot any more; and the bye means that the sender's role is gone exactly
      if nobody has registered for the sender's slot since without leaving it, and on every other instance
      the last one to register has left. */
  lemma ByeMeansGoneExactly(c: R.Config, run: seq<Step>, p: PeerId)
    requires c.Valid() && ValidRun(c, run) && SayBye(p) in run
    ensures p in After(c, run).r.ids && Unslot(p) in run && !R.Holds(After(c, run).r, p)
    ensures var id := After(c, run).r.ids[p];
            RoleIsGone(After(c, run), id.room, id.role) <==>
            && (LastToRegister(run, id) == Some(p) || LastHasLeft(run, id))
            && forall i | i in c.instances && i != id.inst :: LastHasLeft(run, R.Ident(id.room, id.role, i))
  {
    RunInv(c, run);
    RunRemembersByes(c, run);
    RunRemembers(c, run);
    ByeSender(run, After(c, run).r, p);
    var id := After(c, run).r.ids[p];
    RoleIsGoneExactly(c, run, id.room, id.role);
    assert id == R.Ident(id.room, id.role, id.inst);
    if LastToRegister(run, id) == Some(p) {
      assert LastHasLeft(run, id);
    }
    forall i | i in c.instances
      ensures i == id.inst ==> R.Ident(id.room, id.role, i) == id {}
  }

  lemma GoneHoldsNothing(r: R.Roster, p: PeerId)
    requires r.phases.Keys == r.ids.Keys && R.SlotsInv(r) && p in r.ids && !r.phases[p].HasSlot()
    ensures !R.Holds(r, p)
  {
    assert r.ids[p] == R.Ident(r.ids[p].room, r.ids[p].role, r.ids[p].inst);
  }

  lemma ByeSender(run: seq<Step>, r: R.Roster, p: PeerId)
    requires SayBye(p) in run && RemembersByes(run, r) && RemembersLeft(run, r.phases)
    requires r.phases.Keys == r.ids.Keys && R.SlotsInv(r)
    ensures p in r.ids && Unslot(p) in run && !R.Holds(r, p)
  {
    assert p in r.phases && r.phases[p].Gone?;
    GoneHoldsNothing(r, p);
  }

  // --- presence and the room-ended callback ---

  /** After any run each presence count is the number of connections present, and one more for each
      Leave of that place that was not applied. */
  lemma PresenceIsConserved(c: R.Config, run: seq<Step>, room: RoomId, role: Role)
    requires c.Valid() && ValidRun(c, run)
    ensures var r := After(c, run).r;
            && |r.log| == |r.outs| && P.Lost(r.log, r.outs, room, role) >= 0
            && P.Count(r.counts, room, role) == |R.Occupants(r, room, role)| + P.Lost(r.log, r.outs, room, role)
  {
    RunInv(c, run);
    R.CountsAreConserved(c, After(c, run).r, room, role);
  }

  /** In any reachable state, a leaver goes on to call back exactly if its Leave succeeds, nobody else is
      present, and no Leave of this room was ever lost. */
  lemma CallbackFindsRoomEmpty(c: R.Config, run: seq<Step>, p: PeerId, out: Outcome)
    requires c.Valid() && ValidRun(c, run) && Enabled(c, After(c, run), CountOut(p, out))
    ensures var s := After(c, run);
            && s.r.phases.Keys == s.r.ids.Keys && |s.r.log| == |s.r.outs|
            && (Apply(c, s, CountOut(p, out)).r.phases[p].Signalling? <==>
                  out.Done? && R.LastOut(s.r, p) && P.NoneLost(s.r.log, s.r.outs, s.r.ids[p].room))
  {
    RunInv(c, run);
    R.CountOutSignalsEmptied(c, After(c, run).r, p, out);
  }

  function Signallers(r: R.Roster, room: RoomId): set<PeerId> {
    set p | p in r.ids && p in r.phases && r.phases[p].Signalling? && r.ids[p].room == room
  }

  /** The emptyings heard of so far have been called back, or their leavers are about to. */
  ghost predicate CalledBack(r: R.Roster, ended: seq<RoomId>, room: RoomId) {
    && |r.log| == |r.outs|
    && P.Heard(r.log, r.outs, room) == multiset(ended)[room] + |Signallers(r, room)|
  }

  lemma CountOutHeard(c: R.Config, r: R.Roster, p: PeerId, out: Outcome)
    requires r.phases.Keys == r.ids.Keys && R.LogInv(c, r) && p in r.ids && r.phases[p].Unslotted? && (c.mode.InProcess? ==> out.Done?)
    ensures var r' := R.CountOut(c, r, p, out);
            && |r'.log| == |r'.outs|
            && (r'.phases[p].Signalling? <==>
                  !P.Occupied(r'.log, r.ids[p].room) && out.Done? && P.NoneLost(r'.log, r'.outs, r.ids[p].room))
  {
    R.LogCountOut(c, r, p, out);
    R.CountOutSignalsEmptied(c, r, p, out);
    R.UnoccupiedIsLastOut(c, r, p, out);
    P.NoneLostMore(r.log, r.outs, P.Leave(p, r.ids[p].room, r.ids[p].role), out, r.ids[p].room);
  }

  lemma HeardMore(h: seq<P.Event>, outs: seq<Outcome>, e: P.Event, o: Outcome, room: RoomId)
    requires |h| == |outs|
    ensures P.Heard(h + [e], outs + [o], room) ==
            P.Heard(h, outs, room) +
            if e.Leave? && e.room == room && !P.Occupied(h + [e], room) && o.Done? && P.NoneLost(h + [e], outs + [o], room) then 1 else 0
  {
    assert (h + [e])[..|h|] == h && (outs + [o])[..|h|] == outs;
  }

  lemma CountOutCalls(c: R.Config, r: R.Roster, ended: seq<RoomId>, p: PeerId, out: Outcome, room: RoomId)
    requires r.phases.Keys == r.ids.Keys && R.LogInv(c, r) && p in r.ids && r.phases[p].Unslotted? && (c.mode.InProcess? ==> out.Done?)
    requires CalledBack(r, ended, room)
    ensures CalledBack(R.CountOut(c, r, p, out), ended, room)
  {
    CountOutHeard(c, r, p, out);
    HeardMore(r.log, r.outs, P.Leave(p, r.ids[p].room, r.ids[p].role), out, room);
    SignallersMove(r, R.CountOut(c, r, p, out), p, room);
  }

  lemma SignallersMove(r: R.Roster, r': R.Roster, p: PeerId, room: RoomId)
    requires r'.ids == r.ids && p in r.ids && p in r.phases && p in r'.phases && r'.phases - {p} == r.phases - {p}
    requires !r.phases[p].Signalling?
    ensures |Signallers(r', room)| == |Signallers(r, room)| + if r.ids[p].room == room && r'.phases[p].Signalling? then 1 else 0
  {
    forall q | q != p
      ensures q in Signallers(r', room) <==> q in Signallers(r, room)
    {
      assert q in r.phases - {p} <==> q in r'.phases - {p};
    }
    var more := if r.ids[p].room == room && r'.phases[p].Signalling? then {p} else {};
    assert Signallers(r', room) == Signallers(r, room) + more;
  }

  lemma SignalCalls(r: R.Roster, ended: seq<RoomId>, p: PeerId, room: RoomId)
    requires p in r.ids && p in r.phases && r.phases[p].Signalling? && CalledBack(r, ended, room)
    ensures CalledBack(R.Goto(r, p, R.Left), ended + [r.ids[p].room], room)
  {
    var r' := R.Goto(r, p, R.Left);
    if r.ids[p].room == room {
      assert Signallers(r, room) == Signallers(r', room) + {p};
    } else {
      assert Signallers(r', room) == Signallers(r, room);
    }
  }

  lemma OtherCalls(c: R.Config, s: State, step: Step, room: RoomId)
    requires s.r.phases.Keys == s.r.ids.Keys && CalledBack(s.r, s.ended, room) && Enabled(c, s, step)
    requires !step.CountOut? && !step.Signal?
    ensures CalledBack(RosterAfter(c, s, step), s.ended, room)
  {
    var r' := RosterAfter(c, s, step);
    forall p ensures p in Signallers(r', room) <==> p in Signallers(s.r, room) {}
    assert Signallers(r', room) == Signallers(s.r, room);
    if step.CountIn? {
      HeardMore(s.r.log, s.r.outs, P.Join(step.p, s.r.ids[step.p].room, s.r.ids[step.p].role), Done, room);
    }
  }

  lemma {:induction false} HeardAreCalledBack(c: R.Config, run: seq<Step>, room: RoomId)
    requires c.Valid() && ValidRun(c, run)
    ensures CalledBack(After(c, run).r, After(c, run).ended, room)
  {
    if run == [] {
      assert Signallers(After(c, run).r, room) == {};
    } else {
      var before, step := run[..|run| - 1], run[|run| - 1];
      HeardAreCalledBack(c, before, room);
      RunInv(c, before);
      CallsStep(c, After(c, before), step, room);
    }
  }

  /** The callbacks made for a room and about to be made are exactly its emptyings by a Leave that
      succeeded before any Leave of the room was lost. So there is at most one for each time the room goes
      from occupied to empty, and exactly one if and only if every emptying is of that kind. */
  lemma OneCallbackPerEmptying(c: R.Config, run: seq<Step>, room: RoomId)
    requires c.Valid() && ValidRun(c, run)
    ensures var s := After(c, run);
            var calls := multiset(s.ended)[room] + |Signallers(s.r, room)|;
            && |s.r.log| == |s.r.outs|
            && calls == P.Heard(s.r.log, s.r.outs, room) <= P.Emptyings(s.r.log, room)
            && (calls == P.Emptyings(s.r.log, room) <==>
                  forall i: nat | i < |s.r.log| && P.Empties(s.r.log, i, room) :: P.HeardAt(s.r.log, s.r.outs, i, room))
  {
    HeardAreCalledBack(c, run, room);
    P.AllHeardExactly(After(c, run).r.log, After(c, run).r.outs, room);
  }

  lemma CallsStep(c: R.Config, s: State, step: Step, room: RoomId)
    requires s.r.phases.Keys == s.r.ids.Keys && R.LogInv(c, s.r) && Enabled(c, s, step) && CalledBack(s.r, s.ended, room)
    ensures CalledBack(Apply(c, s, step).r, Apply(c, s, step).ended, room)
  {
    if step.CountOut? {
      CountOutCalls(c, s.r, s.ended, step.p, step.out, room);
    } else if step.Signal? {
      SignalCalls(s.r, s.ended, step.p, room);
    } else {
      OtherCalls(c, s, step, room);
    }
  }

  // --- relayed frames ---

  /** Order and isolation, for every run: all that a writer has taken was published by the other role of
      its own room, with its stamp, or is a peer-ready or an error message of its own goroutine; and
      frames of one sender come in the order they were sent, none twice. */
  lemma RelayIsOrderedAndIsolated(c: R.Config, run: seq<Step>, q: PeerId)
    requires c.Valid() && ValidRun(c, run) && q in After(c, run).w.boxes
    ensures var s := After(c, run);
            var taken := s.w.boxes[q].taken;
            && (forall i | 0 <= i < |taken| :: W.FromCounterpart(s.r.ids, s.w.sent, q, taken[i]) || (taken[i].Own? && W.ServerWritten(taken[i].env)))
            && (forall i, j | 0 <= i < j < |taken| :: W.Before(taken[i], taken[j]))
  {
    RunInv(c, run);
    var s := After(c, run);
    var taken := s.w.boxes[q].taken;
    forall i | 0 <= i < |taken|
      ensures W.FromCounterpart(s.r.ids, s.w.sent, q, taken[i]) || (taken[i].Own? && W.ServerWritten(taken[i].env))
    {
      W.TakenFromCounterpart(c, s.r.ids, s.w, q, i);
    }
    forall i, j | 0 <= i < j < |taken|
      ensures W.Before(taken[i], taken[j])
    {
      W.TakenInOrder(c, s.r.ids, s.w, q, i, j);
    }
  }
}
