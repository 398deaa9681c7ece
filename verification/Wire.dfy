/** Frames in transit: what each connection has published, what the fanout still carries, and the
    boxes of the receivers.

    The in-process fanout calls deliverLocal from the publisher's own goroutine; Redis pub/sub
    appends the frame to the subscription of every instance, whose receive loop calls deliverLocal
    later. Both are carriers here: a carrier works through its queue one frame at a time, first the
    look-up in the hub, then the Send; the frame leaves the queue with the Send.
 */
module Wire {
  import opened Rooms
  import opened Mailbox
  import opened Hub
  import opened Roster

  /** A frame is written by the server to the connection of the goroutine itself, or published:
      then `src` published it as its `num`-th frame, at time `at`, for `target` in `room`. */
  datatype Frame =
    | Own(env: Envelope)
    | Published(src: PeerId, num: nat, at: nat, room: RoomId, target: Role, env: Envelope)

  datatype Carrier = ByPeer(peer: PeerId) | ByInstance(inst: Inst)

  type Sent = map<PeerId, seq<Frame>>
  type Boxes = map<PeerId, Box<Frame>>
  type Queues = map<Carrier, seq<Frame>>
  type Hands = map<Carrier, PeerId>
  type Ids = map<PeerId, Ident>

  /** While `k in hands`, deliverLocal on k has looked up the receiver of the frame at the head of k's
      queue and has not sent it yet. `offeredAt` is when a connection was last offered peer-ready (0: never). */
  datatype Wire = Wire(sent: Sent, boxes: Boxes, offeredAt: map<PeerId, nat>, queues: Queues, hands: Hands)

  function Init(c: Config): Wire {
    Wire(map[], map[], map[], map i | i in c.instances :: ByInstance(i) := [], map[])
  }

  predicate Carries(c: Config, k: Carrier, src: PeerId) {
    if c.mode.InProcess? then k == ByPeer(src) else k.ByInstance?
  }

  /** The instance whose hub a carrier looks up. */
  function Where(ids: Ids, k: Carrier): Inst
    requires k.ByPeer? ==> k.peer in ids
  {
    if k.ByPeer? then ids[k.peer].inst else k.inst
  }

  // ---------- steps ----------

  function Attach(w: Wire, p: PeerId): Wire {
    w.(sent := w.sent[p := []], boxes := w.boxes[p := Box([], [], false)], offeredAt := w.offeredAt[p := 0],
       queues := w.queues[ByPeer(p) := []])
  }

  function Append(c: Config, queues: Queues, p: PeerId, f: Frame): Queues {
    map k | k in queues :: if Carries(c, k, p) then queues[k] + [f] else queues[k]
  }

  function FrameOf(ids: Ids, sent: Sent, p: PeerId, now: nat, env: Envelope): Frame
    requires p in ids && p in sent
  {
    Published(p, |sent[p]|, now, ids[p].room, Opposite(ids[p].role), env)
  }

  function Publish(c: Config, ids: Ids, w: Wire, p: PeerId, now: nat, env: Envelope): Wire
    requires p in ids && p in w.sent
  {
    var f := FrameOf(ids, w.sent, p, now, env);
    w.(sent := w.sent[p := w.sent[p] + [f]], queues := Append(c, w.queues, p, f))
  }

  /** Send on peer p. */
  function Offer(w: Wire, p: PeerId, f: Frame, now: nat): Wire
    requires p in w.boxes
  {
    w.(boxes := w.boxes[p := w.boxes[p].Offer(f)],
       offeredAt := if f.env == READY then w.offeredAt[p := now] else w.offeredAt)
  }

  /** closeSend, and a receive by the writer: p's box alone changes. */
  function WithBox(w: Wire, p: PeerId, b: Box<Frame>): Wire {
    w.(boxes := w.boxes[p := b])
  }

  /** deliverLocal's look-up: a frame for an unheld slot is dropped. */
  function PickUp(w: Wire, k: Carrier, to: Option<PeerId>): Wire
    requires k in w.queues && w.queues[k] != []
  {
    if to.Some? then w.(hands := w.hands[k := to.value]) else w.(queues := w.queues[k := w.queues[k][1..]])
  }

  /** deliverLocal's Send. */
  function HandOver(w: Wire, k: Carrier, now: nat): Wire
    requires k in w.hands && w.hands[k] in w.boxes && k in w.queues && w.queues[k] != []
  {
    Offer(w.(hands := w.hands - {k}, queues := w.queues[k := w.queues[k][1..]]), w.hands[k], w.queues[k][0], now)
  }

  // ---------- the invariant ----------

  ghost predicate Shape(c: Config, ids: Ids, w: Wire) {
    && w.sent.Keys == ids.Keys && w.boxes.Keys == ids.Keys && w.offeredAt.Keys == ids.Keys
    && (forall k :: k in w.queues <==> if k.ByPeer? then k.peer in ids else k.inst in c.instances)
    && w.hands.Keys <= w.queues.Keys
  }

  /** A connection publishes for the other role of its own room, stamped with its own role if at all. */
  predicate Addressed(id: Ident, f: Frame) {
    f.Published? && f.room == id.room && f.target == Opposite(id.role) && (f.env == READY || f.env.from == Some(id.role))
  }

  ghost predicate SentInv(ids: Ids, sent: Sent) {
    forall p, i | p in sent && p in ids && 0 <= i < |sent[p]| ::
      Addressed(ids[p], sent[p][i]) && sent[p][i].src == p && sent[p][i].num == i
  }

  /** The frame is the one its source published under that number. */
  predicate Genuine(sent: Sent, f: Frame) {
    f.Published? ==> f.src in sent && f.num < |sent[f.src]| && sent[f.src][f.num] == f
  }

  ghost predicate QueueInv(c: Config, sent: Sent, queues: Queues) {
    forall k: Carrier, i: int | k in queues && 0 <= i < |queues[k]| ::
      queues[k][i].Published? && Genuine(sent, queues[k][i]) && Carries(c, k, queues[k][i].src)
  }

  /** A chosen receiver is a connection of the frame's room and target role on the carrier's instance. */
  predicate HandOk(ids: Ids, queues: Queues, k: Carrier, to: PeerId) {
    && k in queues && queues[k] != [] && queues[k][0].Published?
    && (k.ByPeer? ==> k.peer in ids)
    && to in ids && ids[to] == Ident(queues[k][0].room, queues[k][0].target, Where(ids, k))
  }

  ghost predicate HandInv(ids: Ids, queues: Queues, hands: Hands) {
    forall k | k in hands :: HandOk(ids, queues, k, hands[k])
  }

  /** What a goroutine sends to its own connection. */
  predicate ServerWritten(env: Envelope) {
    env == READY || env == MALFORMED
  }

  /** What a box has accepted came from the other role of its own room, or from its own goroutine. */
  predicate AcceptedOk(id: Ident, sent: Sent, f: Frame) {
    Genuine(sent, f) && if f.Published? then f.room == id.room && f.target == id.role else ServerWritten(f.env)
  }

  ghost predicate BoxInv(ids: Ids, sent: Sent, boxes: Boxes) {
    forall q | q in boxes && q in ids ::
      boxes[q].Bounded() && forall i | 0 <= i < |boxes[q].Accepted()| :: AcceptedOk(ids[q], sent, boxes[q].Accepted()[i])
  }

  /** Frames of one source stand in the order it published them, each once. */
  ghost predicate Increasing(fs: seq<Frame>) {
    forall i, j | 0 <= i < j < |fs| :: Before(fs[i], fs[j])
  }

  ghost predicate QueueOrder(queues: Queues) {
    forall k | k in queues :: Increasing(queues[k])
  }

  ghost predicate BoxOrder(boxes: Boxes) {
    forall q | q in boxes :: Increasing(boxes[q].Accepted())
  }

  /** k may bring frames to q. */
  predicate Serves(c: Config, ids: Ids, k: Carrier, q: PeerId) {
    q in ids && if c.mode.InProcess? then k.ByPeer? else k == ByInstance(ids[q].inst)
  }

  predicate Before(f: Frame, g: Frame) {
    f.Published? && g.Published? && f.src == g.src ==> f.num < g.num
  }

  /** What a carrier still has for q comes after all that q has accepted. */
  ghost predicate Behind(c: Config, ids: Ids, boxes: Boxes, queues: Queues) {
    forall k: Carrier, q: PeerId, i: int, j: int | k in queues && q in boxes && Serves(c, ids, k, q) && 0 <= i < |boxes[q].Accepted()| && 0 <= j < |queues[k]| ::
      Before(boxes[q].Accepted()[i], queues[k][j])
  }

  ghost predicate Inv(c: Config, ids: Ids, w: Wire) {
    && Shape(c, ids, w) && SentInv(ids, w.sent) && QueueInv(c, w.sent, w.queues) && HandInv(ids, w.queues, w.hands)
    && BoxInv(ids, w.sent, w.boxes)
    && QueueOrder(w.queues) && BoxOrder(w.boxes) && Behind(c, ids, w.boxes, w.queues)
  }

  lemma InitInv(c: Config)
    ensures Inv(c, map[], Init(c))
  {
  }

  // ---------- Attach ----------

  lemma AttachInv(c: Config, ids: Ids, w: Wire, p: PeerId, id: Ident)
    requires Inv(c, ids, w) && p !in ids
    ensures Inv(c, ids[p := id], Attach(w, p))
  {
    AttachShape(c, ids, w, p, id);
    AttachSent(ids, w.sent, p, id);
    AttachQueues(c, w.sent, w.queues, p);
    AttachHands(ids, w.queues, w.hands, p, id);
    AttachBoxes(ids, w.sent, w.boxes, p, id);
    AttachOrder(c, ids, w.boxes, w.queues, p, id);
  }

  lemma AttachShape(c: Config, ids: Ids, w: Wire, p: PeerId, id: Ident)
    requires Shape(c, ids, w)
    ensures Shape(c, ids[p := id], Attach(w, p))
  {
  }

  lemma AttachSent(ids: Ids, sent: Sent, p: PeerId, id: Ident)
    requires SentInv(ids, sent) && p !in ids && sent.Keys == ids.Keys
    ensures SentInv(ids[p := id], sent[p := []])
  {
  }

  lemma AttachQueues(c: Config, sent: Sent, queues: Queues, p: PeerId)
    requires QueueInv(c, sent, queues) && p !in sent
    ensures QueueInv(c, sent[p := []], queues[ByPeer(p) := []])
  {
  }

  lemma AttachHands(ids: Ids, queues: Queues, hands: Hands, p: PeerId, id: Ident)
    requires HandInv(ids, queues, hands) && p !in ids
    ensures HandInv(ids[p := id], queues[ByPeer(p) := []], hands)
  {
  }

  lemma AttachBoxes(ids: Ids, sent: Sent, boxes: Boxes, p: PeerId, id: Ident)
    requires BoxInv(ids, sent, boxes) && p !in sent && p !in ids && boxes.Keys == ids.Keys
    ensures BoxInv(ids[p := id], sent[p := []], boxes[p := Box([], [], false)])
  {
  }

  lemma AttachOrder(c: Config, ids: Ids, boxes: Boxes, queues: Queues, p: PeerId, id: Ident)
    requires QueueOrder(queues) && BoxOrder(boxes) && Behind(c, ids, boxes, queues) && p !in ids && boxes.Keys == ids.Keys
    ensures QueueOrder(queues[ByPeer(p) := []]) && BoxOrder(boxes[p := Box([], [], false)])
    ensures Behind(c, ids[p := id], boxes[p := Box([], [], false)], queues[ByPeer(p) := []])
  {
  }

  // ---------- Publish ----------

  lemma PublishInv(c: Config, ids: Ids, w: Wire, p: PeerId, now: nat, env: Envelope)
    requires Inv(c, ids, w) && p in ids && (env == READY || env.from == Some(ids[p].role))
    ensures Inv(c, ids, Publish(c, ids, w, p, now, env))
  {
    var f := FrameOf(ids, w.sent, p, now, env);
    PublishShape(c, ids, w, p, f);
    PublishSent(ids, w.sent, p, f);
    PublishQueues(c, w.sent, w.queues, p, f);
    PublishHands(c, ids, w.queues, w.hands, p, f);
    PublishBoxes(ids, w.sent, w.boxes, p, f);
    PublishQueueOrder(c, w.sent, w.queues, p, f);
    PublishBehind(c, ids, w.sent, w.boxes, w.queues, p, f);
  }

  lemma PublishShape(c: Config, ids: Ids, w: Wire, p: PeerId, f: Frame)
    requires Shape(c, ids, w) && p in ids
    ensures Shape(c, ids, w.(sent := w.sent[p := w.sent[p] + [f]], queues := Append(c, w.queues, p, f)))
  {
  }

  lemma PublishSent(ids: Ids, sent: Sent, p: PeerId, f: Frame)
    requires SentInv(ids, sent) && p in sent && p in ids && Addressed(ids[p], f) && f.src == p && f.num == |sent[p]|
    ensures SentInv(ids, sent[p := sent[p] + [f]])
  {
  }

  lemma StaysGenuine(sent: Sent, p: PeerId, f: Frame, g: Frame)
    requires p in sent && Genuine(sent, g)
    ensures Genuine(sent[p := sent[p] + [f]], g)
  {
  }

  lemma PublishQueues(c: Config, sent: Sent, queues: Queues, p: PeerId, f: Frame)
    requires QueueInv(c, sent, queues) && p in sent && f.Published? && f.src == p && f.num == |sent[p]|
    ensures QueueInv(c, sent[p := sent[p] + [f]], Append(c, queues, p, f))
  {
    var sent': Sent := sent[p := sent[p] + [f]];
    var queues': Queues := Append(c, queues, p, f);
    forall k: Carrier, i: int | k in queues' && 0 <= i < |queues'[k]|
      ensures queues'[k][i].Published? && Genuine(sent', queues'[k][i]) && Carries(c, k, queues'[k][i].src)
    {
      if i < |queues[k]| {
        StaysGenuine(sent, p, f, queues[k][i]);
      }
    }
  }

  lemma PublishHands(c: Config, ids: Ids, queues: Queues, hands: Hands, p: PeerId, f: Frame)
    requires HandInv(ids, queues, hands)
    ensures HandInv(ids, Append(c, queues, p, f), hands)
  {
  }

  lemma PublishBoxes(ids: Ids, sent: Sent, boxes: Boxes, p: PeerId, f: Frame)
    requires BoxInv(ids, sent, boxes) && p in sent
    ensures BoxInv(ids, sent[p := sent[p] + [f]], boxes)
  {
    forall q, i | q in boxes && q in ids && 0 <= i < |boxes[q].Accepted()|
      ensures AcceptedOk(ids[q], sent[p := sent[p] + [f]], boxes[q].Accepted()[i])
    {
      StaysGenuine(sent, p, f, boxes[q].Accepted()[i]);
    }
  }

  lemma PublishQueueOrder(c: Config, sent: Sent, queues: Queues, p: PeerId, f: Frame)
    requires QueueInv(c, sent, queues) && QueueOrder(queues) && p in sent && f.Published? && f.src == p && f.num == |sent[p]|
    ensures QueueOrder(Append(c, queues, p, f))
  {
    var queues': Queues := Append(c, queues, p, f);
    forall k: Carrier, i: int, j: int | k in queues' && 0 <= i < j < |queues'[k]|
      ensures Before(queues'[k][i], queues'[k][j])
    {
      assert Genuine(sent, queues[k][i]);
      if j < |queues[k]| {
        assert Before(queues[k][i], queues[k][j]);
      }
    }
  }

  lemma PublishBehind(c: Config, ids: Ids, sent: Sent, boxes: Boxes, queues: Queues, p: PeerId, f: Frame)
    requires Behind(c, ids, boxes, queues) && BoxInv(ids, sent, boxes) && boxes.Keys == ids.Keys
    requires p in sent && f.Published? && f.src == p && f.num == |sent[p]|
    ensures Behind(c, ids, boxes, Append(c, queues, p, f))
  {
    var queues': Queues := Append(c, queues, p, f);
    forall k: Carrier, q: PeerId, i: int, j: int | k in queues' && q in boxes && Serves(c, ids, k, q) && 0 <= i < |boxes[q].Accepted()| && 0 <= j < |queues'[k]|
      ensures Before(boxes[q].Accepted()[i], queues'[k][j])
    {
      assert AcceptedOk(ids[q], sent, boxes[q].Accepted()[i]);
      if j < |queues[k]| {
        assert Before(boxes[q].Accepted()[i], queues[k][j]);
      }
    }
  }

  // ---------- Offer of an own frame, closing, taking ----------

  /** Any change of p's box that keeps the published frames it has accepted. */
  ghost predicate SameAccepted(b: Box<Frame>, b': Box<Frame>) {
    b'.Bounded() &&
    (b'.Accepted() == b.Accepted() || (exists f: Frame :: f.Own? && ServerWritten(f.env) && b'.Accepted() == b.Accepted() + [f]))
  }

  lemma BoxInvKept(ids: Ids, sent: Sent, boxes: Boxes, p: PeerId, b: Box<Frame>)
    requires BoxInv(ids, sent, boxes) && p in boxes && SameAccepted(boxes[p], b)
    ensures BoxInv(ids, sent, boxes[p := b])
  {
  }

  lemma BoxOrderKept(boxes: Boxes, p: PeerId, b: Box<Frame>)
    requires BoxOrder(boxes) && p in boxes && SameAccepted(boxes[p], b)
    ensures BoxOrder(boxes[p := b])
  {
  }

  lemma BehindKept(c: Config, ids: Ids, boxes: Boxes, queues: Queues, p: PeerId, b: Box<Frame>)
    requires Behind(c, ids, boxes, queues) && p in boxes && SameAccepted(boxes[p], b)
    ensures Behind(c, ids, boxes[p := b], queues)
  {
  }

  lemma WithBoxInv(c: Config, ids: Ids, w: Wire, p: PeerId, b: Box<Frame>)
    requires Inv(c, ids, w) && p in ids && SameAccepted(w.boxes[p], b)
    ensures Inv(c, ids, WithBox(w, p, b))
  {
    BoxInvKept(ids, w.sent, w.boxes, p, b);
    BoxOrderKept(w.boxes, p, b);
    BehindKept(c, ids, w.boxes, w.queues, p, b);
  }

  lemma OfferOwnInv(c: Config, ids: Ids, w: Wire, p: PeerId, env: Envelope, now: nat)
    requires Inv(c, ids, w) && p in ids && ServerWritten(env)
    ensures Inv(c, ids, Offer(w, p, Own(env), now))
  {
    var b := w.boxes[p].Offer(Own(env));
    if w.boxes[p].Open() {
      assert b.Accepted() == w.boxes[p].Accepted() + [Own(env)];
    }
    WithBoxInv(c, ids, w, p, b);
  }

  lemma CloseInv(c: Config, ids: Ids, w: Wire, p: PeerId)
    requires Inv(c, ids, w) && p in ids
    ensures Inv(c, ids, WithBox(w, p, w.boxes[p].Close()))
  {
    WithBoxInv(c, ids, w, p, w.boxes[p].Close());
  }

  lemma TakeInv(c: Config, ids: Ids, w: Wire, p: PeerId)
    requires Inv(c, ids, w) && p in ids && w.boxes[p].queue != []
    ensures Inv(c, ids, WithBox(w, p, w.boxes[p].Take()))
  {
    TakeKeepsAccepted(w.boxes[p]);
    WithBoxInv(c, ids, w, p, w.boxes[p].Take());
  }

  // ---------- PickUp ----------

  lemma DropHead(c: Config, ids: Ids, w: Wire, k: Carrier)
    requires Inv(c, ids, w) && k in w.queues && w.queues[k] != []
    ensures Inv(c, ids, w.(hands := w.hands - {k}, queues := w.queues[k := w.queues[k][1..]]))
  {
  }

  lemma PickUpInv(c: Config, ids: Ids, w: Wire, k: Carrier, to: Option<PeerId>)
    requires Inv(c, ids, w) && k in w.queues && w.queues[k] != [] && k !in w.hands
    requires to.Some? ==> HandOk(ids, w.queues, k, to.value)
    ensures Inv(c, ids, PickUp(w, k, to))
  {
    if to.None? {
      DropHead(c, ids, w, k);
      assert w.hands - {k} == w.hands;
    }
  }

  // ---------- HandOver ----------

  lemma HandOverBoxes(ids: Ids, sent: Sent, boxes: Boxes, q: PeerId, b: Box<Frame>, f: Frame)
    requires BoxInv(ids, sent, boxes) && q in boxes && q in ids && b.Bounded()
    requires b.Accepted() == boxes[q].Accepted() + [f] && AcceptedOk(ids[q], sent, f)
    ensures BoxInv(ids, sent, boxes[q := b])
  {
  }

  lemma HandOverOrder(boxes: Boxes, q: PeerId, b: Box<Frame>, f: Frame)
    requires BoxOrder(boxes) && q in boxes && b.Accepted() == boxes[q].Accepted() + [f]
    requires forall i | 0 <= i < |boxes[q].Accepted()| :: Before(boxes[q].Accepted()[i], f)
    ensures BoxOrder(boxes[q := b])
  {
  }

  /** The frame leaves the head of k's queue for q's box: every other carrier that serves q carries other sources. */
  lemma HandOverBehind(c: Config, ids: Ids, sent: Sent, boxes: Boxes, queues: Queues, k: Carrier, q: PeerId, b: Box<Frame>)
    requires Behind(c, ids, boxes, queues) && QueueOrder(queues) && QueueInv(c, sent, queues)
    requires k in queues && queues[k] != [] && q in boxes && Serves(c, ids, k, q)
    requires b.Accepted() == boxes[q].Accepted() + [queues[k][0]]
    ensures Behind(c, ids, boxes[q := b], queues[k := queues[k][1..]])
  {
    var queues': Queues := queues[k := queues[k][1..]];
    var boxes': Boxes := boxes[q := b];
    forall l: Carrier, p: PeerId, i: int, j: int | l in queues' && p in boxes' && Serves(c, ids, l, p)
      && 0 <= i < |boxes'[p].Accepted()| && 0 <= j < |queues'[l]|
      ensures Before(boxes'[p].Accepted()[i], queues'[l][j])
    {
      var j' := if l == k then j + 1 else j;
      assert queues'[l][j] == queues[l][j'];
      if p == q && i == |boxes[q].Accepted()| {
        if l == k {
          assert Before(queues[k][0], queues[k][j']);
        } else {
          assert Carries(c, k, queues[k][0].src) && Carries(c, l, queues[l][j'].src);
        }
      } else {
        assert Before(boxes[p].Accepted()[i], queues[l][j']);
      }
    }
  }

  /** The frame at the head of k's queue, and the box of its receiver. */
  lemma HeadFitsReceiver(c: Config, ids: Ids, w: Wire, k: Carrier)
    requires Shape(c, ids, w) && QueueInv(c, w.sent, w.queues) && HandInv(ids, w.queues, w.hands)
    requires BoxInv(ids, w.sent, w.boxes) && Behind(c, ids, w.boxes, w.queues) && k in w.hands
    ensures k in w.queues && w.queues[k] != [] && w.hands[k] in ids && Serves(c, ids, k, w.hands[k])
    ensures AcceptedOk(ids[w.hands[k]], w.sent, w.queues[k][0]) && w.boxes[w.hands[k]].Bounded()
    ensures var b := w.boxes[w.hands[k]];
            forall i | 0 <= i < |b.Accepted()| :: Before(b.Accepted()[i], w.queues[k][0])
  {
    assert HandOk(ids, w.queues, k, w.hands[k]) && Carries(c, k, w.queues[k][0].src);
  }

  lemma HandOverInv(c: Config, ids: Ids, w: Wire, k: Carrier, now: nat)
    requires Inv(c, ids, w) && k in w.hands
    ensures Inv(c, ids, HandOver(w, k, now))
  {
    HeadFitsReceiver(c, ids, w, k);
    DropHead(c, ids, w, k);
    var q, f := w.hands[k], w.queues[k][0];
    if w.boxes[q].Open() {
      var b := w.boxes[q].Offer(f);
      assert b.Accepted() == w.boxes[q].Accepted() + [f];
      HandOverBoxes(ids, w.sent, w.boxes, q, b, f);
      HandOverOrder(w.boxes, q, b, f);
      HandOverBehind(c, ids, w.sent, w.boxes, w.queues, k, q, b);
    } else {
      assert w.boxes[q := w.boxes[q]] == w.boxes;
    }
  }

  // ---------- what the invariant gives ----------

  /** f is a frame that the other role of q's own room published, as it was published, and it is a
      peer-ready or carries that role's stamp. */
  ghost predicate FromCounterpart(ids: Ids, sent: Sent, q: PeerId, f: Frame) {
    && f.Published? && q in ids && f.src in ids
    && ids[f.src].room == ids[q].room && ids[f.src].role == Opposite(ids[q].role)
    && (f.env == READY || f.env.from == Some(Opposite(ids[q].role)))
    && f.src in sent && f.num < |sent[f.src]| && sent[f.src][f.num] == f
  }

  /** Isolation: whatever a writer has taken was published by the counterpart, or is a peer-ready or an
      error message of its own goroutine. */
  lemma TakenFromCounterpart(c: Config, ids: Ids, w: Wire, q: PeerId, i: nat)
    requires Inv(c, ids, w) && q in ids && i < |w.boxes[q].taken|
    ensures var f := w.boxes[q].taken[i]; FromCounterpart(ids, w.sent, q, f) || (f.Own? && ServerWritten(f.env))
  {
    var all := w.boxes[q].Accepted();
    assert all[i] == w.boxes[q].taken[i];
    assert AcceptedOk(ids[q], w.sent, all[i]);
  }

  /** Order: frames of one source are taken in the order it published them, none twice. */
  lemma TakenInOrder(c: Config, ids: Ids, w: Wire, q: PeerId, i: nat, j: nat)
    requires Inv(c, ids, w) && q in ids && i < j < |w.boxes[q].taken|
    ensures Before(w.boxes[q].taken[i], w.boxes[q].taken[j])
  {
    var all := w.boxes[q].Accepted();
    assert all[i] == w.boxes[q].taken[i] && all[j] == w.boxes[q].taken[j];
    assert Before(all[i], all[j]);
  }
}
