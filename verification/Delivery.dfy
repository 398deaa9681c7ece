/** What becomes of a published frame: on each of its carriers it waits, has been accepted by a receiver,
    or was dropped, because nobody held the slot at its look-up or the receiver's box was full or closed
    at its Send; and only one of these.
 */
module Delivery {
  import opened Rooms
  import opened Mailbox
  import opened Hub
  import opened Relay
  import R = Roster
  import W = Wire

  /** A frame dropped on a carrier. */
  datatype Drop = Drop(carrier: W.Carrier, frame: W.Frame)

  /** What a step drops: the head of a carrier's queue, if the look-up finds no holder of the slot, or if the
      Send finds the box full or closed. */
  function Dropped(s: State, step: Step): set<Drop> {
    match step
    case Deliver(k) => if HasFrame(s, k) && Receiver(s, k).None? then {Drop(k, s.w.queues[k][0])} else {}
    case Send(k) =>
      if HasFrame(s, k) && k in s.w.hands && s.w.hands[k] in s.w.boxes && !s.w.boxes[s.w.hands[k]].Open()
      then {Drop(k, s.w.queues[k][0])} else {}
    case _ => {}
  }

  ghost function Drops(c: R.Config, run: seq<Step>): set<Drop>
    requires ValidRun(c, run)
  {
    if run == [] then {}
    else Drops(c, run[..|run| - 1]) + Dropped(After(c, run[..|run| - 1]), run[|run| - 1])
  }

  predicate WaitsOn(queues: W.Queues, k: W.Carrier, f: W.Frame) {
    k in queues && f in queues[k]
  }

  /** A receiver that k serves has accepted the frame. */
  ghost predicate AcceptedVia(c: R.Config, ids: W.Ids, boxes: W.Boxes, k: W.Carrier, f: W.Frame) {
    exists q | q in boxes :: W.Serves(c, ids, k, q) && f in boxes[q].Accepted()
  }

  /** Exactly one of the three. */
  ghost predicate Fate(c: R.Config, ids: W.Ids, boxes: W.Boxes, queues: W.Queues, drops: set<Drop>, k: W.Carrier, f: W.Frame) {
    && (WaitsOn(queues, k, f) || AcceptedVia(c, ids, boxes, k, f) || Drop(k, f) in drops)
    && !(WaitsOn(queues, k, f) && AcceptedVia(c, ids, boxes, k, f))
    && !(WaitsOn(queues, k, f) && Drop(k, f) in drops)
    && !(AcceptedVia(c, ids, boxes, k, f) && Drop(k, f) in drops)
  }

  /** The frame is published, on this carrier among others. */
  predicate Published(c: R.Config, w: W.Wire, k: W.Carrier, f: W.Frame) {
    f.Published? && W.Genuine(w.sent, f) && k in w.queues && W.Carries(c, k, f.src)
  }

  // ---------- the steps ----------

  lemma AttachFate(c: R.Config, ids: W.Ids, w: W.Wire, drops: set<Drop>, p: PeerId, id: R.Ident, k: W.Carrier, f: W.Frame)
    requires W.Shape(c, ids, w) && p !in ids && Published(c, w, k, f) && Fate(c, ids, w.boxes, w.queues, drops, k, f)
    ensures Fate(c, ids[p := id], W.Attach(w, p).boxes, W.Attach(w, p).queues, drops, k, f)
  {
    var boxes' := W.Attach(w, p).boxes;
    assert WaitsOn(W.Attach(w, p).queues, k, f) <==> WaitsOn(w.queues, k, f);
    if q :| q in w.boxes && W.Serves(c, ids, k, q) && f in w.boxes[q].Accepted() {
      assert q in boxes' && W.Serves(c, ids[p := id], k, q) && f in boxes'[q].Accepted();
    }
    if q :| q in boxes' && W.Serves(c, ids[p := id], k, q) && f in boxes'[q].Accepted() {
      assert q in w.boxes && W.Serves(c, ids, k, q) && f in w.boxes[q].Accepted();
    }
  }

  /** A change of one box that keeps the published frames it has accepted. */
  lemma BoxFate(c: R.Config, ids: W.Ids, boxes: W.Boxes, queues: W.Queues, drops: set<Drop>, p: PeerId, b: Box<W.Frame>, k: W.Carrier, f: W.Frame)
    requires p in boxes && W.SameAccepted(boxes[p], b) && f.Published? && Fate(c, ids, boxes, queues, drops, k, f)
    ensures Fate(c, ids, boxes[p := b], queues, drops, k, f)
  {
    var boxes' := boxes[p := b];
    assert f in b.Accepted() <==> f in boxes[p].Accepted();
    if q :| q in boxes && W.Serves(c, ids, k, q) && f in boxes[q].Accepted() {
      assert q in boxes' && f in boxes'[q].Accepted();
    }
    if q :| q in boxes' && W.Serves(c, ids, k, q) && f in boxes'[q].Accepted() {
      assert q in boxes && f in boxes[q].Accepted();
    }
  }

  lemma OwnFate(c: R.Config, ids: W.Ids, w: W.Wire, drops: set<Drop>, p: PeerId, env: Envelope, now: nat, k: W.Carrier, f: W.Frame)
    requires p in w.boxes && w.boxes[p].Bounded() && W.ServerWritten(env) && f.Published?
    requires Fate(c, ids, w.boxes, w.queues, drops, k, f)
    ensures Fate(c, ids, W.Offer(w, p, W.Own(env), now).boxes, w.queues, drops, k, f)
  {
    var b := w.boxes[p].Offer(W.Own(env));
    if w.boxes[p].Open() {
      assert b.Accepted() == w.boxes[p].Accepted() + [W.Own(env)];
    }
    BoxFate(c, ids, w.boxes, w.queues, drops, p, b, k, f);
  }

  lemma PublishFate(c: R.Config, ids: W.Ids, w: W.Wire, drops: set<Drop>, p: PeerId, now: nat, env: Envelope, k: W.Carrier, f: W.Frame)
    requires p in ids && p in w.sent && Published(c, w, k, f) && Fate(c, ids, w.boxes, w.queues, drops, k, f)
    ensures Fate(c, ids, w.boxes, W.Publish(c, ids, w, p, now, env).queues, drops, k, f)
  {
    var g := W.FrameOf(ids, w.sent, p, now, env);
    assert f != g;
    assert f in W.Append(c, w.queues, p, g)[k] <==> f in w.queues[k];
  }

  /** A new frame waits on every carrier that carries it, and nowhere else is it known. */
  lemma NewFate(c: R.Config, ids: W.Ids, w: W.Wire, drops: set<Drop>, p: PeerId, now: nat, env: Envelope, k: W.Carrier)
    requires p in ids && p in w.sent && k in w.queues && W.Carries(c, k, p) && w.boxes.Keys == ids.Keys
    requires W.BoxInv(ids, w.sent, w.boxes) && forall d | d in drops :: d.frame.Published? && W.Genuine(w.sent, d.frame)
    ensures Fate(c, ids, w.boxes, W.Publish(c, ids, w, p, now, env).queues, drops, k, W.FrameOf(ids, w.sent, p, now, env))
  {
    var g := W.FrameOf(ids, w.sent, p, now, env);
    var queues' := W.Append(c, w.queues, p, g);
    assert queues'[k][|w.queues[k]|] == g;
    forall q, i | q in w.boxes && 0 <= i < |w.boxes[q].Accepted()|
      ensures w.boxes[q].Accepted()[i] != g
    {
      assert W.AcceptedOk(ids[q], w.sent, w.boxes[q].Accepted()[i]);
    }
  }

  lemma HeadOnce(fs: seq<W.Frame>)
    requires W.Increasing(fs) && fs != [] && fs[0].Published?
    ensures fs[0] !in fs[1..]
    ensures forall f | f != fs[0] :: f in fs[1..] <==> f in fs
  {
    forall i | 0 <= i < |fs| - 1 ensures fs[1..][i] != fs[0] {
      assert W.Before(fs[0], fs[i + 1]);
    }
    forall f | f != fs[0] && f in fs ensures f in fs[1..] {
      var i :| 0 <= i < |fs| && fs[i] == f;
      assert fs[1..][i - 1] == f;
    }
  }

  /** The head of l's queue is dropped. */
  lemma DropFate(c: R.Config, ids: W.Ids, boxes: W.Boxes, queues: W.Queues, drops: set<Drop>, l: W.Carrier, k: W.Carrier, f: W.Frame)
    requires l in queues && queues[l] != [] && queues[l][0].Published? && W.Increasing(queues[l])
    requires Fate(c, ids, boxes, queues, drops, k, f)
    ensures Fate(c, ids, boxes, queues[l := queues[l][1..]], drops + {Drop(l, queues[l][0])}, k, f)
  {
    HeadOnce(queues[l]);
    if l == k && f == queues[l][0] {
      assert WaitsOn(queues, k, f);
    }
  }

  /** The head of l's queue is accepted by q. */
  lemma AcceptFate(c: R.Config, ids: W.Ids, boxes: W.Boxes, queues: W.Queues, drops: set<Drop>, l: W.Carrier, q: PeerId, b: Box<W.Frame>,
                   k: W.Carrier, f: W.Frame)
    requires l in queues && queues[l] != [] && queues[l][0].Published? && W.Increasing(queues[l])
    requires f.Published? && W.Carries(c, l, queues[l][0].src) && W.Serves(c, ids, l, q) && W.Carries(c, k, f.src)
    requires q in boxes && b.Accepted() == boxes[q].Accepted() + [queues[l][0]]
    requires Fate(c, ids, boxes, queues, drops, k, f)
    ensures Fate(c, ids, boxes[q := b], queues[l := queues[l][1..]], drops, k, f)
  {
    var g := queues[l][0];
    var boxes', queues' := boxes[q := b], queues[l := queues[l][1..]];
    HeadOnce(queues[l]);
    if l == k && f == g {
      assert WaitsOn(queues, k, f) && !WaitsOn(queues', k, f);
      assert q in boxes' && f in boxes'[q].Accepted();
    } else {
      assert WaitsOn(queues', k, f) <==> WaitsOn(queues, k, f);
      AcceptedElsewhere(c, ids, boxes, q, b, g, l, k, f);
    }
  }

  lemma AcceptedElsewhere(c: R.Config, ids: W.Ids, boxes: W.Boxes, q: PeerId, b: Box<W.Frame>, g: W.Frame, l: W.Carrier, k: W.Carrier, f: W.Frame)
    requires q in boxes && b.Accepted() == boxes[q].Accepted() + [g] && g.Published? && f.Published?
    requires W.Carries(c, l, g.src) && W.Serves(c, ids, l, q) && W.Carries(c, k, f.src) && !(l == k && f == g)
    ensures AcceptedVia(c, ids, boxes[q := b], k, f) <==> AcceptedVia(c, ids, boxes, k, f)
  {
    var boxes' := boxes[q := b];
    if p :| p in boxes && W.Serves(c, ids, k, p) && f in boxes[p].Accepted() {
      assert p in boxes' && f in boxes'[p].Accepted();
    }
    if p :| p in boxes' && W.Serves(c, ids, k, p) && f in boxes'[p].Accepted() {
      assert p in boxes && f in boxes[p].Accepted();
    }
  }

  ghost predicate FateIn(c: R.Config, s: State, drops: set<Drop>, k: W.Carrier, f: W.Frame) {
    Fate(c, s.r.ids, s.w.boxes, s.w.queues, drops, k, f)
  }

  lemma DeliverFate(c: R.Config, s: State, drops: set<Drop>, l: W.Carrier, k: W.Carrier, f: W.Frame)
    requires W.QueueInv(c, s.w.sent, s.w.queues) && W.QueueOrder(s.w.queues) && Enabled(c, s, Deliver(l))
    requires FateIn(c, s, drops, k, f)
    ensures FateIn(c, Apply(c, s, Deliver(l)), drops + Dropped(s, Deliver(l)), k, f)
  {
    if Receiver(s, l).None? {
      DropFate(c, s.r.ids, s.w.boxes, s.w.queues, drops, l, k, f);
    } else {
      assert drops + {} == drops;
    }
  }

  lemma HeadFate(c: R.Config, ids: W.Ids, w: W.Wire, drops: set<Drop>, now: nat, l: W.Carrier, k: W.Carrier, f: W.Frame)
    requires W.Shape(c, ids, w) && W.QueueInv(c, w.sent, w.queues) && W.HandInv(ids, w.queues, w.hands)
    requires W.BoxInv(ids, w.sent, w.boxes) && W.Behind(c, ids, w.boxes, w.queues) && W.QueueOrder(w.queues)
    requires l in w.hands && Published(c, w, k, f) && Fate(c, ids, w.boxes, w.queues, drops, k, f)
    ensures l in w.queues && w.queues[l] != [] && w.hands[l] in w.boxes
    ensures var w' := W.HandOver(w, l, now);
            Fate(c, ids, w'.boxes, w'.queues,
                 drops + (if w.boxes[w.hands[l]].Open() then {} else {Drop(l, w.queues[l][0])}), k, f)
  {
    W.HeadFitsReceiver(c, ids, w, l);
    var q, g := w.hands[l], w.queues[l][0];
    var b := w.boxes[q].Offer(g);
    if w.boxes[q].Open() {
      assert b.Accepted() == w.boxes[q].Accepted() + [g] && drops + {} == drops;
      assert W.Carries(c, l, g.src);
      AcceptFate(c, ids, w.boxes, w.queues, drops, l, q, b, k, f);
    } else {
      assert w.boxes[q := b] == w.boxes;
      DropFate(c, ids, w.boxes, w.queues, drops, l, k, f);
    }
  }

  lemma SendFate(c: R.Config, s: State, drops: set<Drop>, l: W.Carrier, k: W.Carrier, f: W.Frame)
    requires W.Inv(c, s.r.ids, s.w) && Enabled(c, s, Send(l)) && Published(c, s.w, k, f) && FateIn(c, s, drops, k, f)
    ensures FateIn(c, Apply(c, s, Send(l)), drops + Dropped(s, Send(l)), k, f)
  {
    HeadFate(c, s.r.ids, s.w, drops, s.now, l, k, f);
  }

  lemma OwnStepFate(c: R.Config, s: State, drops: set<Drop>, step: Step, k: W.Carrier, f: W.Frame)
    requires W.Shape(c, s.r.ids, s.w) && W.BoxInv(s.r.ids, s.w.sent, s.w.boxes) && Enabled(c, s, step) && f.Published?
    requires (step.Greet? || step.Reject?) && FateIn(c, s, drops, k, f)
    ensures FateIn(c, Apply(c, s, step), drops, k, f)
  {
    if step.Greet? {
      OwnFate(c, s.r.ids, s.w, drops, step.p, READY, s.now, k, f);
    } else {
      OwnFate(c, s.r.ids, s.w, drops, step.p, MALFORMED, s.now, k, f);
    }
  }

  lemma CloseFate(c: R.Config, s: State, drops: set<Drop>, p: PeerId, k: W.Carrier, f: W.Frame)
    requires W.Shape(c, s.r.ids, s.w) && W.BoxInv(s.r.ids, s.w.sent, s.w.boxes) && Enabled(c, s, CloseSend(p)) && f.Published?
    requires FateIn(c, s, drops, k, f)
    ensures FateIn(c, Apply(c, s, CloseSend(p)), drops, k, f)
  {
    BoxFate(c, s.r.ids, s.w.boxes, s.w.queues, drops, p, s.w.boxes[p].Close(), k, f);
  }

  lemma TakeFate(c: R.Config, s: State, drops: set<Drop>, p: PeerId, k: W.Carrier, f: W.Frame)
    requires W.Shape(c, s.r.ids, s.w) && W.BoxInv(s.r.ids, s.w.sent, s.w.boxes) && Enabled(c, s, Take(p)) && f.Published?
    requires FateIn(c, s, drops, k, f)
    ensures FateIn(c, Apply(c, s, Take(p)), drops, k, f)
  {
    TakeKeepsAccepted(s.w.boxes[p]);
    BoxFate(c, s.r.ids, s.w.boxes, s.w.queues, drops, p, s.w.boxes[p].Take(), k, f);
  }

  /** The frame a step publishes, if it publishes one. */
  function EnvelopeOf(s: State, step: Step): Option<Envelope> {
    match step
    case Announce(_) => Some(READY)
    case Relay(p, kind, payload) => if p in s.r.ids then Some(Envelope(kind, Some(s.r.ids[p].role), payload)) else None
    case SayBye(p) => if p in s.r.ids then Some(Bye(s.r.ids[p].role)) else None
    case _ => None
  }

  lemma PublishingStep(c: R.Config, s: State, step: Step)
    requires Enabled(c, s, step) && (step.Announce? || step.Relay? || step.SayBye?)
    ensures EnvelopeOf(s, step).Some? && step.p in s.r.ids && step.p in s.w.sent
    ensures Apply(c, s, step).w == W.Publish(c, s.r.ids, s.w, step.p, s.now, EnvelopeOf(s, step).value)
    ensures Apply(c, s, step).r.ids == s.r.ids && Dropped(s, step) == {}
  {
  }

  lemma RegisterFate(c: R.Config, s: State, drops: set<Drop>, p: PeerId, id: R.Ident, k: W.Carrier, f: W.Frame)
    requires W.Shape(c, s.r.ids, s.w) && Enabled(c, s, Register(p, id)) && Published(c, s.w, k, f) && FateIn(c, s, drops, k, f)
    ensures FateIn(c, Apply(c, s, Register(p, id)), drops, k, f)
  {
    AttachFate(c, s.r.ids, s.w, drops, p, id, k, f);
  }

  predicate Quiet(step: Step) {
    step.CountIn? || step.Unslot? || step.CountOut? || step.Signal?
  }

  lemma QuietStep(c: R.Config, s: State, step: Step)
    requires Enabled(c, s, step) && Quiet(step)
    ensures Apply(c, s, step).w == s.w && Apply(c, s, step).r.ids == s.r.ids && Dropped(s, step) == {}
  {
  }

  lemma StepFate(c: R.Config, s: State, drops: set<Drop>, step: Step, k: W.Carrier, f: W.Frame)
    requires W.Inv(c, s.r.ids, s.w) && Enabled(c, s, step) && Published(c, s.w, k, f) && FateIn(c, s, drops, k, f)
    ensures FateIn(c, Apply(c, s, step), drops + Dropped(s, step), k, f)
  {
    assert drops + {} == drops;
    if step.Deliver? {
      DeliverFate(c, s, drops, step.k, k, f);
    } else if step.Send? {
      SendFate(c, s, drops, step.k, k, f);
    } else {
      assert Dropped(s, step) == {};
      OtherFate(c, s, drops, step, k, f);
    }
  }

  lemma OtherFate(c: R.Config, s: State, drops: set<Drop>, step: Step, k: W.Carrier, f: W.Frame)
    requires W.Shape(c, s.r.ids, s.w) && W.BoxInv(s.r.ids, s.w.sent, s.w.boxes)
    requires Enabled(c, s, step) && !step.Deliver? && !step.Send? && Published(c, s.w, k, f) && FateIn(c, s, drops, k, f)
    ensures FateIn(c, Apply(c, s, step), drops, k, f)
  {
    if step.Register? {
      RegisterFate(c, s, drops, step.p, step.id, k, f);
    } else if step.Announce? || step.Relay? || step.SayBye? {
      PublishingStep(c, s, step);
      PublishFate(c, s.r.ids, s.w, drops, step.p, s.now, EnvelopeOf(s, step).value, k, f);
    } else if step.Greet? || step.Reject? {
      OwnStepFate(c, s, drops, step, k, f);
    } else if step.CloseSend? {
      CloseFate(c, s, drops, step.p, k, f);
    } else if step.Take? {
      TakeFate(c, s, drops, step.p, k, f);
    } else {
      QuietStep(c, s, step);
    }
  }

  // ---------- every run ----------

  lemma RegisterPublishesNothing(c: R.Config, ids: W.Ids, w: W.Wire, p: PeerId, k: W.Carrier, f: W.Frame)
    requires W.Shape(c, ids, w) && Published(c, W.Attach(w, p), k, f) && p !in ids
    ensures Published(c, w, k, f)
  {
  }

  lemma OthersPublishNothing(c: R.Config, s: State, step: Step)
    requires Enabled(c, s, step) && EnvelopeOf(s, step).None? && !step.Register?
    ensures var w' := Apply(c, s, step).w; w'.sent == s.w.sent && w'.queues.Keys == s.w.queues.Keys
  {
  }

  lemma OnlyTheNewFrame(c: R.Config, ids: W.Ids, w: W.Wire, p: PeerId, now: nat, env: Envelope, k: W.Carrier, f: W.Frame)
    requires p in ids && p in w.sent && Published(c, W.Publish(c, ids, w, p, now, env), k, f) && !Published(c, w, k, f)
    ensures f == W.FrameOf(ids, w.sent, p, now, env) && k in w.queues && W.Carries(c, k, p)
  {
  }

  /** A frame published by this step and not before. */
  lemma NewlyPublished(c: R.Config, s: State, step: Step, k: W.Carrier, f: W.Frame)
    requires W.Shape(c, s.r.ids, s.w) && Enabled(c, s, step) && Published(c, Apply(c, s, step).w, k, f) && !Published(c, s.w, k, f)
    ensures step.Announce? || step.Relay? || step.SayBye?
    ensures EnvelopeOf(s, step).Some? && step.p in s.r.ids && step.p in s.w.sent
    ensures k in s.w.queues && W.Carries(c, k, step.p)
    ensures f == W.FrameOf(s.r.ids, s.w.sent, step.p, s.now, EnvelopeOf(s, step).value)
  {
    if step.Register? {
      RegisterPublishesNothing(c, s.r.ids, s.w, step.p, k, f);
    } else if step.Announce? || step.Relay? || step.SayBye? {
      PublishingStep(c, s, step);
      OnlyTheNewFrame(c, s.r.ids, s.w, step.p, s.now, EnvelopeOf(s, step).value, k, f);
    } else {
      OthersPublishNothing(c, s, step);
    }
  }

  ghost predicate DropsAreGenuine(drops: set<Drop>, sent: W.Sent) {
    forall d | d in drops :: d.frame.Published? && W.Genuine(sent, d.frame)
  }

  lemma SentGrows(c: R.Config, s: State, step: Step, f: W.Frame)
    requires W.Shape(c, s.r.ids, s.w) && Enabled(c, s, step) && f.Published? && W.Genuine(s.w.sent, f)
    ensures W.Genuine(Apply(c, s, step).w.sent, f)
  {
  }

  lemma DroppedIsGenuine(c: R.Config, s: State, step: Step)
    requires W.QueueInv(c, s.w.sent, s.w.queues) && Enabled(c, s, step)
    ensures DropsAreGenuine(Dropped(s, step), s.w.sent)
  {
  }

  lemma GenuineStep(c: R.Config, s: State, step: Step, drops: set<Drop>)
    requires W.Shape(c, s.r.ids, s.w) && W.QueueInv(c, s.w.sent, s.w.queues) && Enabled(c, s, step) && DropsAreGenuine(drops, s.w.sent)
    ensures DropsAreGenuine(drops + Dropped(s, step), Apply(c, s, step).w.sent)
  {
    DroppedIsGenuine(c, s, step);
    forall d | d in drops + Dropped(s, step)
      ensures d.frame.Published? && W.Genuine(Apply(c, s, step).w.sent, d.frame)
    {
      SentGrows(c, s, step, d.frame);
    }
  }

  lemma {:induction false} RunDropsGenuine(c: R.Config, run: seq<Step>)
    requires c.Valid() && ValidRun(c, run)
    ensures DropsAreGenuine(Drops(c, run), After(c, run).w.sent)
  {
    if run != [] {
      var before := run[..|run| - 1];
      RunDropsGenuine(c, before);
      RunInv(c, before);
      GenuineStep(c, After(c, before), run[|run| - 1], Drops(c, before));
    }
  }

  lemma FirstFate(c: R.Config, s: State, step: Step, drops: set<Drop>, k: W.Carrier, f: W.Frame)
    requires W.Inv(c, s.r.ids, s.w) && Enabled(c, s, step) && Published(c, Apply(c, s, step).w, k, f) && !Published(c, s.w, k, f)
    requires DropsAreGenuine(drops, s.w.sent)
    ensures FateIn(c, Apply(c, s, step), drops + Dropped(s, step), k, f)
  {
    NewlyPublished(c, s, step, k, f);
    PublishingStep(c, s, step);
    NewFate(c, s.r.ids, s.w, drops, step.p, s.now, EnvelopeOf(s, step).value, k);
    assert drops + {} == drops;
  }

  /** In every state of every run, each frame published has exactly one fate on each of its carriers: it
      waits there, a receiver served by it has accepted the frame, or the frame was dropped there, because
      nobody held the slot at its look-up or the receiver's box was full or closed at its Send. */
  lemma {:induction false} EachFrameHasOneFate(c: R.Config, run: seq<Step>, k: W.Carrier, f: W.Frame)
    requires c.Valid() && ValidRun(c, run) && Published(c, After(c, run).w, k, f)
    ensures FateIn(c, After(c, run), Drops(c, run), k, f)
  {
    if run != [] {
      var before, step := run[..|run| - 1], run[|run| - 1];
      assert W.Inv(c, After(c, before).r.ids, After(c, before).w) by { RunInv(c, before); }
      if Published(c, After(c, before).w, k, f) {
        EachFrameHasOneFate(c, before, k, f);
        StepFate(c, After(c, before), Drops(c, before), step, k, f);
      } else {
        RunDropsGenuine(c, before);
        FirstFate(c, After(c, before), step, Drops(c, before), k, f);
      }
    }
  }
}
