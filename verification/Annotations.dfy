/** The phone's two annotation stores: world anchors, and the flat overlay that stands in for them.

    Raycasts and anchor creation are foreign calls, so their outcome is an arbitrary part of the
    event. Scene objects are numbered as they are instantiated; `alive` are those not destroyed.
    Nobody but the two stores destroys their objects.
 */
module Annotations {
  import opened Rooms

  type Id = string
  type ObjectId = nat

  datatype Point = Point(u: real, v: real)

  /** What the raycast finds, and whether an anchor can be made there. */
  datatype Raycast = Miss | Hit(anchorable: bool)

  datatype Event =
    | Place(id: Id, point: Option<Point>, ray: Raycast) // op "create" or "update"
    | Delete(id: Id)
    | Clear
    | Unknown                                            // any other op

  /** A scene object standing for an annotation, and the frame point it was placed by. */
  datatype Marker = Marker(obj: ObjectId, at: Point)

  type Markers = map<Id, Marker>

  function Objects(m: Markers): set<ObjectId> {
    set id | id in m :: m[id].obj
  }

  ghost predicate Unshared(m: Markers) {
    forall i, j | i in m && j in m && m[i].obj == m[j].obj :: i == j
  }

  lemma ObjectsWith(m: Markers, id: Id, x: Marker)
    requires id !in m && x.obj !in Objects(m) && Unshared(m)
    ensures Objects(m[id := x]) == Objects(m) + {x.obj} && Unshared(m[id := x])
  {
    var more := m[id := x];
    forall o | o in Objects(m) + {x.obj} ensures o in Objects(more) {
      if o == x.obj {
        assert more[id].obj == o;
      } else {
        var i :| i in m && m[i].obj == o;
        assert i in more && more[i].obj == o;
      }
    }
    forall i | i in m ensures m[i].obj in Objects(m) {}
  }

  lemma ObjectsWithout(m: Markers, id: Id)
    requires id in m && Unshared(m)
    ensures Objects(m - {id}) == Objects(m) - {m[id].obj} && Unshared(m - {id}) && m[id].obj in Objects(m)
  {
    forall o | o in Objects(m) - {m[id].obj} ensures o in Objects(m - {id}) {
      var i :| i in m && m[i].obj == o;
      assert i in m - {id} && (m - {id})[i].obj == o;
    }
  }

  lemma ObjectsMoved(m: Markers, id: Id, at: Point)
    requires id in m
    ensures Objects(m[id := m[id].(at := at)]) == Objects(m)
  {
    var moved := m[id := m[id].(at := at)];
    forall o | o in Objects(m) ensures o in Objects(moved) {
      var i :| i in m && m[i].obj == o;
      assert i in moved && moved[i].obj == o;
    }
  }

  /** Destroying one object per id, all ids done: nothing of the map is left alive. */
  lemma ObjectsGone(m: Markers, alive: set<ObjectId>)
    requires forall id | id in m :: m[id].obj !in alive
    ensures Objects(m) !! alive
  {
  }

  // ---------- what the stores are, said of the log ----------

  predicate Missed(e: Event, id: Id) {
    e.Place? && e.id == id && e.point.Some? && e.ray.Miss?
  }

  predicate HitOn(e: Event, id: Id) {
    e.Place? && e.id == id && e.point.Some? && e.ray.Hit?
  }

  predicate Removes(e: Event, id: Id) {
    e.Clear? || (e.Delete? && e.id == id)
  }

  /** The last event of the log that matters to an overlay marker: a placement, a delete or a clear. */
  function LastForOverlay(log: seq<Event>, id: Id): Option<nat> {
    if log == [] then None
    else
      var last := |log| - 1;
      if Missed(log[last], id) || HitOn(log[last], id) || Removes(log[last], id) then Some(last) else LastForOverlay(log[..last], id)
  }

  /** ... and to an anchor: a placement that hit, a delete or a clear. A miss does not matter. */
  function LastForAnchor(log: seq<Event>, id: Id): Option<nat> {
    if log == [] then None
    else
      var last := |log| - 1;
      if HitOn(log[last], id) || Removes(log[last], id) then Some(last) else LastForAnchor(log[..last], id)
  }

  /** An id is in the overlay iff its last relevant event is a placement that missed. */
  predicate ShouldOverlay(log: seq<Event>, id: Id) {
    var l := LastForOverlay(log, id);
    l.Some? && l.value < |log| && Missed(log[l.value], id)
  }

  /** An id has an anchor iff some placement since its last delete or clear hit, and the last such hit
      could be anchored. */
  predicate ShouldAnchor(log: seq<Event>, id: Id) {
    var l := LastForAnchor(log, id);
    l.Some? && l.value < |log| && HitOn(log[l.value], id) && log[l.value].ray.anchorable
  }

  function LastHit(log: seq<Event>, id: Id): Option<Point> {
    var l := LastForAnchor(log, id);
    if l.Some? && l.value < |log| && HitOn(log[l.value], id) then log[l.value].point else None
  }

  function LastPoint(log: seq<Event>, id: Id): Option<Point> {
    var l := LastForOverlay(log, id);
    if l.Some? && l.value < |log| && Missed(log[l.value], id) then log[l.value].point else None
  }

  lemma {:induction false} LastIsInside(log: seq<Event>, id: Id)
    ensures LastForOverlay(log, id).Some? ==> LastForOverlay(log, id).value < |log|
    ensures LastForAnchor(log, id).Some? ==> LastForAnchor(log, id).value < |log|
  {
    if log != [] {
      LastIsInside(log[..|log| - 1], id);
    }
  }

  /** How one more event changes what the log says. */
  lemma Replay(log: seq<Event>, e: Event)
    ensures forall id :: ShouldOverlay(log + [e], id) <==>
                           Missed(e, id) || (ShouldOverlay(log, id) && !HitOn(e, id) && !Removes(e, id))
    ensures forall id :: ShouldAnchor(log + [e], id) <==>
                           (HitOn(e, id) && e.ray.anchorable) || (ShouldAnchor(log, id) && !HitOn(e, id) && !Removes(e, id))
    ensures forall id :: LastPoint(log + [e], id) ==
                           if Missed(e, id) then e.point else if HitOn(e, id) || Removes(e, id) then None else LastPoint(log, id)
    ensures forall id :: LastHit(log + [e], id) ==
                           if HitOn(e, id) then e.point else if Removes(e, id) then None else LastHit(log, id)
  {
    assert (log + [e])[..|log|] == log;
    forall id
      ensures LastForOverlay(log, id).Some? ==> LastForOverlay(log, id).value < |log|
      ensures LastForAnchor(log, id).Some? ==> LastForAnchor(log, id).value < |log|
    {
      LastIsInside(log, id);
    }
  }

  /** A placement that misses puts the flat marker up and leaves an older anchor standing, so one id
      can be in both stores. */
  lemma MissKeepsOldAnchor(log: seq<Event>, e: Event, id: Id)
    requires Missed(e, id)
    ensures ShouldOverlay(log + [e], id)
    ensures ShouldAnchor(log + [e], id) <==> ShouldAnchor(log, id)
  {
    Replay(log, e);
  }

  /** No hit, delete or clear follows the i-th event. */
  predicate NothingAfter(log: seq<Event>, id: Id, i: nat) {
    forall k | i < k < |log| :: !HitOn(log[k], id) && !Removes(log[k], id)
  }

  lemma NothingAfterMore(log: seq<Event>, id: Id, j: nat)
    requires j < |log| - 1
    ensures var last := |log| - 1;
            NothingAfter(log, id, j) <==> NothingAfter(log[..last], id, j) && !HitOn(log[last], id) && !Removes(log[last], id)
  {
    var last := |log| - 1;
    if NothingAfter(log, id, j) {
      forall k | j < k < last ensures !HitOn(log[..last][k], id) && !Removes(log[..last][k], id) { assert log[k] == log[..last][k]; }
    } else if !HitOn(log[last], id) && !Removes(log[last], id) {
      var k :| j < k < |log| && (HitOn(log[k], id) || Removes(log[k], id));
      assert log[k] == log[..last][k];
    }
  }

  /** Read off the log: an id is in the overlay iff some placement of it missed and nothing after took it
      out ... */
  lemma {:induction false} OverlayExactly(log: seq<Event>, id: Id)
    ensures ShouldOverlay(log, id) <==> exists j: nat | j < |log| :: Missed(log[j], id) && NothingAfter(log, id, j)
  {
    if log != [] {
      var last := |log| - 1;
      OverlayExactly(log[..last], id);
      LastIsInside(log[..last], id);
      forall j: nat | j < last
        ensures NothingAfter(log, id, j) <==> NothingAfter(log[..last], id, j) && !HitOn(log[last], id) && !Removes(log[last], id)
      {
        NothingAfterMore(log, id, j);
      }
      if Missed(log[last], id) {
        assert NothingAfter(log, id, last);
      }
      if ShouldOverlay(log[..last], id) && !HitOn(log[last], id) && !Removes(log[last], id) {
        var j: nat :| j < last && Missed(log[..last][j], id) && NothingAfter(log[..last], id, j);
        assert Missed(log[j], id) && NothingAfter(log, id, j);
      }
      Replay(log[..last], log[last]);
      assert log[..last] + [log[last]] == log;
      if j: nat :| j < |log| && Missed(log[j], id) && NothingAfter(log, id, j) {
        if j < last {
          assert Missed(log[..last][j], id) && NothingAfter(log[..last], id, j);
        }
      }
    }
  }

  /** ... and has an anchor iff some anchorable hit of it was not followed by a hit or a removal. */
  lemma {:induction false} AnchorExactly(log: seq<Event>, id: Id)
    ensures ShouldAnchor(log, id) <==> exists i: nat | i < |log| :: HitOn(log[i], id) && log[i].ray.anchorable && NothingAfter(log, id, i)
  {
    if log != [] {
      var last := |log| - 1;
      AnchorExactly(log[..last], id);
      LastIsInside(log[..last], id);
      forall j: nat | j < last
        ensures NothingAfter(log, id, j) <==> NothingAfter(log[..last], id, j) && !HitOn(log[last], id) && !Removes(log[last], id)
      {
        NothingAfterMore(log, id, j);
      }
      if HitOn(log[last], id) {
        assert NothingAfter(log, id, last);
      }
      if ShouldAnchor(log[..last], id) && !HitOn(log[last], id) && !Removes(log[last], id) {
        var j: nat :| j < last && HitOn(log[..last][j], id) && log[..last][j].ray.anchorable && NothingAfter(log[..last], id, j);
        assert HitOn(log[j], id) && log[j].ray.anchorable && NothingAfter(log, id, j);
      }
      Replay(log[..last], log[last]);
      assert log[..last] + [log[last]] == log;
      if j: nat :| j < |log| && HitOn(log[j], id) && log[j].ray.anchorable && NothingAfter(log, id, j) {
        if j < last {
          assert HitOn(log[..last][j], id) && log[..last][j].ray.anchorable && NothingAfter(log[..last], id, j);
        }
      }
    }
  }

  /** An id is in both stores exactly if an anchorable hit of it is followed by a miss, and by no other hit
      and no removal. */
  lemma InBothExactly(log: seq<Event>, id: Id)
    ensures ShouldOverlay(log, id) && ShouldAnchor(log, id) <==>
            exists i: nat, j: nat | i < j < |log| ::
              HitOn(log[i], id) && log[i].ray.anchorable && NothingAfter(log, id, i) && Missed(log[j], id)
  {
    OverlayExactly(log, id);
    AnchorExactly(log, id);
    if ShouldOverlay(log, id) && ShouldAnchor(log, id) {
      var j: nat :| j < |log| && Missed(log[j], id) && NothingAfter(log, id, j);
      var i: nat :| i < |log| && HitOn(log[i], id) && log[i].ray.anchorable && NothingAfter(log, id, i);
      assert i < j;
    }
    if i: nat, j: nat :| i < j < |log| && HitOn(log[i], id) && log[i].ray.anchorable && NothingAfter(log, id, i) && Missed(log[j], id) {
      assert NothingAfter(log, id, j);
    }
  }

  /** A placement that hits and an update that misses will do. */
  lemma HitThenMissIsInBoth(id: Id, at: Point, next: Point)
    ensures var log := [Place(id, Some(at), Hit(true)), Place(id, Some(next), Miss)];
            ShouldOverlay(log, id) && ShouldAnchor(log, id)
  {
    var log := [Place(id, Some(at), Hit(true)), Place(id, Some(next), Miss)];
    assert HitOn(log[0], id) && log[0].ray.anchorable && NothingAfter(log, id, 0) && Missed(log[1], id);
    InBothExactly(log, id);
  }

  /** The stores are what the log says they should be. */
  ghost predicate IsReplay(log: seq<Event>, markers: Markers, anchors: Markers) {
    && (forall id :: id in markers <==> ShouldOverlay(log, id))
    && (forall id | id in markers :: LastPoint(log, id) == Some(markers[id].at))
    && (forall id :: id in anchors <==> ShouldAnchor(log, id))
    && forall id | id in anchors :: LastHit(log, id) == Some(anchors[id].at)
  }

  /** What one event does to one store: `puts` says whether it places a marker for the id. */
  ghost predicate Becomes(e: Event, m: Markers, m': Markers, puts: bool, drops: bool)
    requires e.Place? && e.point.Some?
  {
    && m' - {e.id} == m - {e.id}
    && (puts ==> e.id in m' && m'[e.id].at == e.point.value)
    && (!puts && drops ==> e.id !in m')
    && (!puts && !drops ==> m' == m)
  }

  ghost predicate Effect(e: Event, m: Markers, a: Markers, m': Markers, a': Markers) {
    match e
    case Place(_, None, _) => m' == m && a' == a
    case Place(_, Some(_), Miss) => Becomes(e, m, m', true, false) && Becomes(e, a, a', false, false)
    case Place(_, Some(_), Hit(anchorable)) => Becomes(e, m, m', false, true) && Becomes(e, a, a', anchorable, true)
    case Delete(id) => m' == m - {id} && a' == a - {id}
    case Clear => m' == map[] && a' == map[]
    case Unknown => m' == m && a' == a
  }

  lemma OtherIds(m: Markers, m': Markers, id: Id, i: Id)
    requires m' - {id} == m - {id} && i != id
    ensures (i in m' <==> i in m) && (i in m ==> m'[i] == m[i])
  {
    assert i in m <==> i in m - {id};
    assert i in m' <==> i in m' - {id};
    assert i in m ==> (m - {id})[i] == m[i];
    assert i in m' ==> (m' - {id})[i] == m'[i];
  }

  lemma ReplayMarkers(log: seq<Event>, e: Event, m: Markers, a: Markers, m': Markers, a': Markers, i: Id)
    requires IsReplay(log, m, a) && Effect(e, m, a, m', a')
    ensures i in m' <==> ShouldOverlay(log + [e], i)
    ensures i in m' ==> LastPoint(log + [e], i) == Some(m'[i].at)
  {
    Replay(log, e);
    if e.Place? && e.id != i && e.point.Some? {
      OtherIds(m, m', e.id, i);
    }
  }

  lemma ReplayAnchors(log: seq<Event>, e: Event, m: Markers, a: Markers, m': Markers, a': Markers, i: Id)
    requires IsReplay(log, m, a) && Effect(e, m, a, m', a')
    ensures i in a' <==> ShouldAnchor(log + [e], i)
    ensures i in a' ==> LastHit(log + [e], i) == Some(a'[i].at)
  {
    Replay(log, e);
    if e.Place? && e.id != i && e.point.Some? {
      OtherIds(a, a', e.id, i);
    }
  }

  lemma ReplayStep(log: seq<Event>, e: Event, m: Markers, a: Markers, m': Markers, a': Markers)
    requires IsReplay(log, m, a) && Effect(e, m, a, m', a')
    ensures IsReplay(log + [e], m', a')
  {
    forall i
      ensures i in m' <==> ShouldOverlay(log + [e], i)
      ensures i in m' ==> LastPoint(log + [e], i) == Some(m'[i].at)
      ensures i in a' <==> ShouldAnchor(log + [e], i)
      ensures i in a' ==> LastHit(log + [e], i) == Some(a'[i].at)
    {
      ReplayMarkers(log, e, m, a, m', a', i);
      ReplayAnchors(log, e, m, a, m', a', i);
    }
  }

  // ---------- the scene ----------

  class Scene {
    var next: ObjectId
    var alive: set<ObjectId>

    ghost predicate Valid()
      reads this
    {
      forall o | o in alive :: o < next
    }

    constructor ()
      ensures Valid() && alive == {}
    {
      next, alive := 0, {};
    }

    method Instantiate() returns (o: ObjectId)
      requires Valid()
      modifies this
      ensures Valid() && o !in old(alive) && alive == old(alive) + {o}
    {
      o := next;
      next := next + 1;
      alive := alive + {o};
    }

    method Destroy(o: ObjectId)
      requires Valid()
      modifies this
      ensures Valid() && alive == old(alive) - {o} && next == old(next)
    {
      alive := alive - {o};
    }
  }

  // ---------- the overlay ----------

  class Overlay {
    const scene: Scene
    var markers: Markers

    ghost predicate Valid()
      reads this, scene
    {
      scene.Valid() && Objects(markers) <= scene.alive && Unshared(markers)
    }

    constructor (scene: Scene)
      requires scene.Valid()
      ensures Valid() && this.scene == scene && markers == map[]
    {
      this.scene := scene;
      markers := map[];
    }

    /** An existing marker is moved, a missing one is made. */
    method PlaceOrMove(id: Id, at: Point)
      requires Valid()
      modifies this`markers, scene
      ensures Valid() && scene.alive - Objects(markers) == old(scene.alive - Objects(markers))
      ensures old(scene.alive) <= scene.alive && Objects(markers) - old(Objects(markers)) !! old(scene.alive)
      ensures id in markers && markers[id].at == at && markers - {id} == old(markers) - {id}
      ensures id in old(markers) ==> markers[id].obj == old(markers)[id].obj
    {
      if id !in markers {
        var o := scene.Instantiate();
        ObjectsWith(markers, id, Marker(o, at));
        markers := markers[id := Marker(o, at)];
      }
      ObjectsMoved(markers, id, at);
      markers := markers[id := markers[id].(at := at)];
    }

    method Remove(id: Id)
      requires Valid()
      modifies this`markers, scene
      ensures Valid() && scene.alive - Objects(markers) == old(scene.alive - Objects(markers))
      ensures Objects(markers) <= old(Objects(markers))
      ensures markers == old(markers) - {id}
    {
      if id in markers {
        ObjectsWithout(markers, id);
        scene.Destroy(markers[id].obj);
        markers := markers - {id};
      }
    }

    /** Destroys every marker of the map, then empties it. */
    method Clear()
      requires Valid()
      modifies this`markers, scene
      ensures Valid() && scene.alive == old(scene.alive - Objects(markers)) && markers == map[]
    {
      DestroyAll(scene, markers);
      markers := map[];
    }
  }

  /** The loop both Clears run. */
  method DestroyAll(scene: Scene, m: Markers)
    requires scene.Valid()
    modifies scene
    ensures scene.Valid() && scene.alive == old(scene.alive) - Objects(m)
  {
    var todo := m.Keys;
    while todo != {}
      invariant todo <= m.Keys && scene.Valid()
      invariant old(scene.alive) - Objects(m) <= scene.alive <= old(scene.alive)
      invariant forall id | id in m && id !in todo :: m[id].obj !in scene.alive
      decreases |todo|
    {
      var id :| id in todo;
      assert m[id].obj in Objects(m);
      scene.Destroy(m[id].obj);
      todo := todo - {id};
    }
    ObjectsGone(m, scene.alive);
  }

  // ---------- the anchor manager ----------

  /** The manager with its overlay. `log` holds the events applied so far. */
  class AnchorManager {
    const scene: Scene
    const overlay: Overlay
    var anchors: Markers
    ghost var log: seq<Event>

    /** No leak and no sharing: the objects alive are those of the two maps, each for one id of one map. */
    ghost predicate Owned()
      reads this, scene, overlay
    {
      && overlay.scene == scene && overlay.Valid() && Unshared(anchors)
      && scene.alive == Objects(anchors) + Objects(overlay.markers) && Objects(anchors) !! Objects(overlay.markers)
    }

    ghost predicate Replays()
      reads this, overlay
    {
      IsReplay(log, overlay.markers, anchors)
    }

    constructor ()
      ensures Owned() && Replays() && log == [] && fresh(scene) && fresh(overlay)
    {
      var empty := new Scene();
      scene := empty;
      overlay := new Overlay(empty);
      anchors := map[];
      log := [];
    }

    method Remove(id: Id)
      requires Owned()
      modifies this`anchors, scene
      ensures Owned() && anchors == old(anchors) - {id} && overlay.markers == old(overlay.markers)
    {
      if id in anchors {
        ObjectsWithout(anchors, id);
        scene.Destroy(anchors[id].obj);
        anchors := anchors - {id};
      }
    }

    method ClearAnchors()
      requires Owned()
      modifies this`anchors, scene
      ensures Owned() && anchors == map[] && overlay.markers == old(overlay.markers)
    {
      DestroyAll(scene, anchors);
      anchors := map[];
    }

    /** The anchor and the marker instantiated under it are destroyed together and count as one object. */
    method CreateAnchor(id: Id, at: Point)
      requires Owned() && id !in anchors
      modifies this`anchors, scene
      ensures Owned() && id in anchors && anchors[id].at == at && anchors - {id} == old(anchors)
      ensures overlay.markers == old(overlay.markers)
    {
      var o := scene.Instantiate();
      ObjectsWith(anchors, id, Marker(o, at));
      anchors := anchors[id := Marker(o, at)];
    }

    /** PlaceOrMove: on a miss the overlay takes over and an old anchor stays; on a hit the old anchor
        and the overlay marker go before the new anchor is tried. */
    method PlaceOrMove(id: Id, point: Option<Point>, ray: Raycast)
      requires Owned()
      modifies this`anchors, scene, overlay
      ensures Owned()
      ensures Effect(Place(id, point, ray), old(overlay.markers), old(anchors), overlay.markers, anchors)
    {
      if point.None? {
        return;
      }
      if ray.Miss? {
        overlay.PlaceOrMove(id, point.value);
        return;
      }
      Remove(id);
      overlay.Remove(id);
      if !ray.anchorable {
        return;
      }
      CreateAnchor(id, point.value);
    }

    /** Apply: whatever the events and the raycasts, the two stores stay the replay of the log, and own
        exactly the objects alive. */
    method Apply(e: Event)
      requires Owned() && Replays()
      modifies this, scene, overlay
      ensures Owned() && Replays() && log == old(log) + [e]
      ensures Effect(e, old(overlay.markers), old(anchors), overlay.markers, anchors)
    {
      match e {
        case Place(id, point, ray) => PlaceOrMove(id, point, ray);
        case Delete(id) =>
          Remove(id);
          overlay.Remove(id);
        case Clear =>
          ClearAnchors();
          overlay.Clear();
        case Unknown =>
      }
      ReplayStep(log, e, old(overlay.markers), old(anchors), overlay.markers, anchors);
      log := log + [e];
    }
  }
}
