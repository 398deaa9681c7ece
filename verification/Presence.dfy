/** Presence: how many connections of each role a room has.

    LocalPresence keeps the counts in a process-local map and cleans up after itself;
    RedisPresence keeps them in one shared hash per room, may go to zero or below, and its
    transactions may fail. Both are specified by functions on the stored counts. The history
    theorems say that, on every history in which a connection joins once and then leaves once,
    both give the answers of the connections that are really there.
 */
module Presence {
  import opened Rooms

  type Counts = map<RoomId, map<Role, int>>

  function Count(c: Counts, room: RoomId, role: Role): int {
    if room in c && role in c[room] then c[room][role] else 0
  }

  /** What a Join answers: the roles other than the newcomer's with a positive count. */
  function Others(c: Counts, room: RoomId, role: Role): set<Role> {
    set r: Role | r != role && Count(c, room, r) > 0
  }

  predicate Vacant(c: Counts, room: RoomId) {
    forall r: Role :: Count(c, room, r) <= 0
  }

  /** LocalPresence stores positive counts only and no empty room. */
  ghost predicate Tidy(c: Counts) {
    forall room | room in c :: c[room] != map[] && forall r | r in c[room] :: c[room][r] > 0
  }

  /** HINCRBY on the room's hash; also LocalPresence's increment. */
  function Add(c: Counts, room: RoomId, role: Role, d: int): Counts {
    var fields := if room in c then c[room] else map[];
    c[room := fields[role := Count(c, room, role) + d]]
  }

  /** LocalPresence.Leave: clamp at zero, drop the role at zero, drop the room when no role is left. */
  function LocalLeave(c: Counts, room: RoomId, role: Role): Counts {
    if room !in c then c
    else if Count(c, room, role) > 1 then Add(c, room, role, -1)
    else
      var rest := c[room] - {role};
      if rest == map[] then c - {room} else c[room := rest]
  }

  lemma AddCounts(c: Counts, room: RoomId, role: Role, d: int)
    ensures forall r, k :: Count(Add(c, room, role, d), r, k) == Count(c, r, k) + if r == room && k == role then d else 0
  {
  }

  lemma LocalLeaveCounts(c: Counts, room: RoomId, role: Role)
    requires Tidy(c)
    ensures Tidy(LocalLeave(c, room, role))
    ensures forall r, k ::
              Count(LocalLeave(c, room, role), r, k) ==
              if r == room && k == role && Count(c, r, k) > 0 then Count(c, r, k) - 1 else Count(c, r, k)
    ensures room !in LocalLeave(c, room, role) <==> Vacant(LocalLeave(c, room, role), room)
  {
    var c' := LocalLeave(c, room, role);
    forall k | room in c && k in c[room] && k != role
      ensures c[room] - {role} != map[]
    {
      assert k in c[room] - {role};
    }
    if room in c' {
      var k :| k in c'[room];
      assert Count(c', room, k) > 0;
    }
  }

  /** The counts decide a tidy map, so a contract on counts says all there is to say. */
  lemma {:induction false} TidyIsCanonical(a: Counts, b: Counts)
    requires Tidy(a) && Tidy(b)
    requires forall r, k :: Count(a, r, k) == Count(b, r, k)
    ensures a == b
  {
    forall r | r in a || r in b
      ensures r in a && r in b && a[r] == b[r]
    {
      if r in a { var k :| k in a[r]; assert Count(a, r, k) > 0; assert Count(b, r, k) > 0; }
      if r in b { var k :| k in b[r]; assert Count(b, r, k) > 0; assert Count(a, r, k) > 0; }
      forall k: Role
        ensures k in a[r] <==> k in b[r]
        ensures k in a[r] ==> a[r][k] == b[r][k]
      {
        assert Count(a, r, k) == Count(b, r, k);
      }
    }
  }

  // ---------- the two implementations ----------

  class LocalPresence {
    var rooms: Counts

    ghost predicate Valid()
      reads this
    {
      Tidy(rooms)
    }

    constructor ()
      ensures Valid() && rooms == map[]
    {
      rooms := map[];
    }

    method Join(room: RoomId, role: Role) returns (others: seq<Role>)
      requires Valid()
      modifies this
      ensures Valid()
      ensures rooms == Add(old(rooms), room, role, 1)
      ensures (set r | r in others) == Others(rooms, room, role)
      ensures forall i, j :: 0 <= i < j < |others| ==> others[i] != others[j]
    {
      if room !in rooms {
        rooms := rooms[room := map[]];
      }
      var counts := rooms[room];
      rooms := rooms[room := counts[role := (if role in counts then counts[role] else 0) + 1]];
      AddCounts(old(rooms), room, role, 1);
      assert rooms == Add(old(rooms), room, role, 1);
      others := Positive(rooms[room], {role});
    }

    method Leave(room: RoomId, role: Role) returns (empty: bool)
      requires Valid()
      modifies this
      ensures Valid()
      ensures rooms == LocalLeave(old(rooms), room, role)
      ensures empty <==> Vacant(rooms, room)
    {
      LocalLeaveCounts(rooms, room, role);
      if room !in rooms {
        return true;
      }
      var counts := rooms[room];
      if role in counts && counts[role] > 0 {
        counts := counts[role := counts[role] - 1];
      }
      if role !in counts || counts[role] <= 0 {
        counts := counts - {role};
      }
      assert counts == if old(Count(rooms, room, role)) > 1
                       then old(rooms)[room][role := old(Count(rooms, room, role)) - 1] else old(rooms)[room] - {role};
      if |counts| == 0 {
        rooms := rooms - {room};
        return true;
      }
      rooms := rooms[room := counts];
      return false;
    }
  }

  /** The loop both Joins run over the room's fields: keep the positive ones outside `skip`. */
  method Positive(fields: map<Role, int>, skip: set<Role>) returns (found: seq<Role>)
    ensures (set r | r in found) == set r | r in fields && r !in skip && fields[r] > 0
    ensures forall i, j :: 0 <= i < j < |found| ==> found[i] != found[j]
  {
    found := [];
    var todo := fields.Keys;
    while todo != {}
      invariant todo <= fields.Keys
      invariant forall r :: r in found <==> r in fields && r !in todo && r !in skip && fields[r] > 0
      invariant forall i, j :: 0 <= i < j < |found| ==> found[i] != found[j]
      decreases |todo|
    {
      var r :| r in todo;
      todo := todo - {r};
      if r !in skip && fields[r] > 0 {
        found := found + [r];
      }
    }
  }

  class RedisPresence {
    var hash: Counts

    constructor ()
      ensures hash == map[]
    {
      hash := map[];
    }

    method Join(room: RoomId, role: Role, outcome: Outcome) returns (others: seq<Role>)
      modifies this
      ensures hash == if outcome == Failed(false) then old(hash) else Add(old(hash), room, role, 1)
      ensures (set r | r in others) == if outcome.Done? then Others(hash, room, role) else {}
      ensures forall i, j :: 0 <= i < j < |others| ==> others[i] != others[j]
    {
      if outcome != Failed(false) {
        hash := Add(hash, room, role, 1);
      }
      if outcome.Failed? {
        return [];
      }
      others := Positive(hash[room], {role});
    }

    method Leave(room: RoomId, role: Role, outcome: Outcome) returns (empty: bool)
      modifies this
      ensures hash == if outcome == Failed(false) then old(hash) else Add(old(hash), room, role, -1)
      ensures empty <==> outcome.Done? && Vacant(hash, room)
    {
      if outcome != Failed(false) {
        hash := Add(hash, room, role, -1);
      }
      if outcome.Failed? {
        return false;
      }
      var todo := hash[room].Keys;
      while todo != {}
        invariant todo <= hash[room].Keys
        invariant forall r | r in hash[room] && r !in todo :: hash[room][r] <= 0
        decreases |todo|
      {
        var r :| r in todo;
        if hash[room][r] > 0 {
          assert Count(hash, room, r) > 0;
          return false;
        }
        todo := todo - {r};
      }
      return true;
    }
  }

  // ---------- histories ----------

  datatype Event =
    | Join(peer: PeerId, room: RoomId, role: Role)
    | Leave(peer: PeerId, room: RoomId, role: Role)

  datatype Place = Place(room: RoomId, role: Role)

  /** The connections between their Join and their Leave. */
  function Live(h: seq<Event>): map<PeerId, Place> {
    if h == [] then map[]
    else
      var before := Live(h[..|h| - 1]);
      match h[|h| - 1]
      case Join(p, room, role) => before[p := Place(room, role)]
      case Leave(p, _, _) => before - {p}
  }

  function Seen(h: seq<Event>): set<PeerId> {
    set i | 0 <= i < |h| :: h[i].peer
  }

  /** Every connection joins at most once, and leaves at most once, after joining, from the same place. */
  predicate WellFormed(h: seq<Event>) {
    h == [] ||
    (var before := h[..|h| - 1];
     WellFormed(before) &&
     match h[|h| - 1]
     case Join(p, _, _) => p !in Seen(before)
     case Leave(p, room, role) => p in Live(before) && Live(before)[p] == Place(room, role))
  }

  function Members(live: map<PeerId, Place>, room: RoomId, role: Role): set<PeerId> {
    set p | p in live && live[p] == Place(room, role)
  }

  ghost predicate Occupied(h: seq<Event>, room: RoomId) {
    exists p :: p in Live(h) && Live(h)[p].room == room
  }

  datatype Reply = Present(others: set<Role>) | Left(empty: bool)

  /** What the interface promises, said of the connections and not of any counter. */
  ghost function TrueReply(h: seq<Event>): Reply
    requires h != []
  {
    var e := h[|h| - 1];
    match e
    case Join(_, room, role) => Present(set r: Role | r != role && Members(Live(h), room, r) != {})
    case Leave(_, room, _) => Left(!Occupied(h, room))
  }

  function LocalRun(h: seq<Event>): Counts {
    if h == [] then map[]
    else
      var c := LocalRun(h[..|h| - 1]);
      match h[|h| - 1]
      case Join(_, room, role) => Add(c, room, role, 1)
      case Leave(_, room, role) => LocalLeave(c, room, role)
  }

  function LocalReply(h: seq<Event>): Reply
    requires h != []
  {
    var c := LocalRun(h);
    match h[|h| - 1]
    case Join(_, room, role) => Present(Others(c, room, role))
    case Leave(_, room, _) => Left(Vacant(c, room))
  }

  /** `out[i]` is how the transaction of `h[i]` ended. */
  function RedisRun(h: seq<Event>, out: seq<Outcome>): Counts
    requires |h| == |out|
  {
    if h == [] then map[]
    else
      var last := |h| - 1;
      var c := RedisRun(h[..last], out[..last]);
      if out[last] == Failed(false) then c
      else Add(c, h[last].room, h[last].role, if h[last].Join? then 1 else -1)
  }

  function RedisReply(h: seq<Event>, out: seq<Outcome>): Reply
    requires |h| == |out| > 0
  {
    var last := |h| - 1;
    var c := RedisRun(h, out);
    match h[last]
    case Join(_, room, role) => Present(if out[last].Done? then Others(c, room, role) else {})
    case Leave(_, room, _) => Left(out[last].Done? && Vacant(c, room))
  }

  function AllDone(n: nat): seq<Outcome> {
    seq(n, _ => Done)
  }

  lemma {:induction false} LiveIsSeen(h: seq<Event>)
    ensures Live(h).Keys <= Seen(h)
  {
    if h != [] {
      var before := h[..|h| - 1];
      LiveIsSeen(before);
      assert h == before + [h[|h| - 1]];
      forall p | p in Seen(before) ensures p in Seen(h) {
        var i :| 0 <= i < |before| && before[i].peer == p;
        assert h[i].peer == p;
      }
      assert h[|h| - 1].peer in Seen(h);
    }
  }

  lemma MembersWith(live: map<PeerId, Place>, p: PeerId, at: Place, room: RoomId, role: Role)
    requires p !in live
    ensures |Members(live[p := at], room, role)| == |Members(live, room, role)| + if at == Place(room, role) then 1 else 0
  {
    var before, after := Members(live, room, role), Members(live[p := at], room, role);
    forall q | q != p ensures q in after <==> q in before {}
    if at == Place(room, role) {
      assert after == before + {p};
    } else {
      assert after == before;
    }
  }

  /** How one event changes the number of connections at a place. */
  lemma {:induction false} MembersStep(h: seq<Event>, room: RoomId, role: Role)
    requires h != [] && WellFormed(h)
    ensures var e := h[|h| - 1];
            |Members(Live(h), room, role)| ==
            |Members(Live(h[..|h| - 1]), room, role)| +
            if Place(e.room, e.role) != Place(room, role) then 0 else if e.Join? then 1 else -1
  {
    var e := h[|h| - 1];
    var before := Live(h[..|h| - 1]);
    if e.Join? {
      LiveIsSeen(h[..|h| - 1]);
      MembersWith(before, e.peer, Place(e.room, e.role), room, role);
    } else {
      MembersWith(before - {e.peer}, e.peer, Place(e.room, e.role), room, role);
      assert (before - {e.peer})[e.peer := Place(e.room, e.role)] == before;
    }
  }

  lemma {:induction false} LocalCounts(h: seq<Event>)
    requires WellFormed(h)
    ensures Tidy(LocalRun(h))
    ensures forall room, role :: Count(LocalRun(h), room, role) == |Members(Live(h), room, role)|
  {
    if h == [] {
    } else {
      var before := h[..|h| - 1];
      var e := h[|h| - 1];
      LocalCounts(before);
      AddCounts(LocalRun(before), e.room, e.role, 1);
      LocalLeaveCounts(LocalRun(before), e.room, e.role);
      forall room, role
        ensures Count(LocalRun(h), room, role) == |Members(Live(h), room, role)|
      {
        MembersStep(h, room, role);
      }
    }
  }

  /** By how much failed transactions have put a count out: one too many for each Leave that was not
      applied, one too few for each Join. */
  function Lost(h: seq<Event>, out: seq<Outcome>, room: RoomId, role: Role): int
    requires |h| == |out|
  {
    if h == [] then 0
    else
      var last := |h| - 1;
      Lost(h[..last], out[..last], room, role) +
      if Place(h[last].room, h[last].role) != Place(room, role) || out[last] != Failed(false) then 0
      else if h[last].Leave? then 1 else -1
  }

  /** The law of the shared hash, whatever Joins and Leaves fail, applied or not: each count is the number
      of connections it stands for, put out by the transactions lost at that place. */
  lemma {:induction false} RedisCounts(h: seq<Event>, out: seq<Outcome>)
    requires WellFormed(h) && |h| == |out|
    ensures forall room, role :: Count(RedisRun(h, out), room, role) == |Members(Live(h), room, role)| + Lost(h, out, room, role)
  {
    if h == [] {
    } else {
      var last := |h| - 1;
      RedisCounts(h[..last], out[..last]);
      AddCounts(RedisRun(h[..last], out[..last]), h[last].room, h[last].role, if h[last].Join? then 1 else -1);
      forall room, role
        ensures Count(RedisRun(h, out), room, role) == |Members(Live(h), room, role)| + Lost(h, out, room, role)
      {
        MembersStep(h, room, role);
      }
    }
  }

  ghost predicate JoinsSucceed(h: seq<Event>, out: seq<Outcome>)
    requires |h| == |out|
  {
    forall i | 0 <= i < |h| && h[i].Join? :: out[i].Done?
  }

  /** Every Leave at the place was applied, whether or not its caller heard of it. */
  ghost predicate NoneLostAt(h: seq<Event>, out: seq<Outcome>, room: RoomId, role: Role)
    requires |h| == |out|
  {
    forall i | 0 <= i < |h| && h[i].Leave? && h[i].room == room && h[i].role == role :: out[i] != Failed(false)
  }

  ghost predicate NoneLost(h: seq<Event>, out: seq<Outcome>, room: RoomId)
    requires |h| == |out|
  {
    forall role: Role :: NoneLostAt(h, out, room, role)
  }

  lemma NoneLostAtMore(h: seq<Event>, out: seq<Outcome>, e: Event, o: Outcome, room: RoomId, role: Role)
    requires |h| == |out|
    ensures NoneLostAt(h + [e], out + [o], room, role) <==>
            NoneLostAt(h, out, room, role) && !(e.Leave? && e.room == room && e.role == role && o == Failed(false))
  {
    var g, u := h + [e], out + [o];
    forall i | 0 <= i < |h| ensures g[i] == h[i] && u[i] == out[i] {}
    assert g[|h|] == e && u[|h|] == o;
  }

  lemma NoneLostMore(h: seq<Event>, out: seq<Outcome>, e: Event, o: Outcome, room: RoomId)
    requires |h| == |out|
    ensures NoneLost(h + [e], out + [o], room) <==> NoneLost(h, out, room) && !(e.Leave? && e.room == room && o == Failed(false))
  {
    forall role: Role
      ensures NoneLostAt(h + [e], out + [o], room, role) <==>
              NoneLostAt(h, out, room, role) && !(e.Leave? && e.room == room && e.role == role && o == Failed(false))
    {
      NoneLostAtMore(h, out, e, o, room, role);
    }
    if NoneLost(h + [e], out + [o], room) {
      assert NoneLostAt(h + [e], out + [o], room, e.role);
    }
  }

  /** While Joins succeed no count is too low, and a count is right exactly if no Leave of it was lost. */
  lemma {:induction false} LostLeaves(h: seq<Event>, out: seq<Outcome>, room: RoomId, role: Role)
    requires |h| == |out| && JoinsSucceed(h, out)
    ensures Lost(h, out, room, role) >= 0
    ensures NoneLostAt(h, out, room, role) <==> Lost(h, out, room, role) == 0
  {
    if h != [] {
      var last := |h| - 1;
      assert h[..last] + [h[last]] == h && out[..last] + [out[last]] == out;
      assert JoinsSucceed(h[..last], out[..last]) by {
        forall i | 0 <= i < last && h[..last][i].Join? ensures out[..last][i].Done? { assert h[i].Join?; }
      }
      LostLeaves(h[..last], out[..last], room, role);
      NoneLostAtMore(h[..last], out[..last], h[last], out[last], room, role);
    }
  }

  lemma VacantMeansUnoccupied(h: seq<Event>, c: Counts, room: RoomId)
    requires forall role :: Count(c, room, role) >= |Members(Live(h), room, role)|
    ensures Vacant(c, room) ==> !Occupied(h, room)
    ensures (forall role :: Count(c, room, role) == |Members(Live(h), room, role)|) && !Occupied(h, room) ==> Vacant(c, room)
  {
    forall p | p in Live(h) && Live(h)[p].room == room
      ensures !Vacant(c, room)
    {
      assert p in Members(Live(h), room, Live(h)[p].role);
      assert Count(c, room, Live(h)[p].role) > 0;
    }
    if !Occupied(h, room) {
      forall role: Role ensures Members(Live(h), room, role) == {} {}
    }
  }

  /** LocalPresence answers the truth about the connections. */
  lemma LocalIsTrue(h: seq<Event>)
    requires WellFormed(h) && h != []
    ensures LocalReply(h) == TrueReply(h)
  {
    LocalCounts(h);
    VacantMeansUnoccupied(h, LocalRun(h), h[|h| - 1].room);
  }

  /** An error-free RedisPresence answers the truth too, although it keeps zero fields ... */
  lemma RedisIsTrue(h: seq<Event>)
    requires WellFormed(h) && h != []
    ensures RedisReply(h, AllDone(|h|)) == TrueReply(h)
  {
    var e := h[|h| - 1];
    if e.Join? {
      forall k ensures Lost(h, AllDone(|h|), e.room, k) == 0 { LostLeaves(h, AllDone(|h|), e.room, k); }
      JoinIsTrueExactly(h, AllDone(|h|));
    } else {
      EmptyIsReportedExactly(h, AllDone(|h|));
    }
  }

  /** ... so the two agree on every answer of every history. */
  lemma RedisRefinesLocal(h: seq<Event>, n: nat)
    requires WellFormed(h) && 0 < n <= |h|
    ensures RedisReply(h[..n], AllDone(n)) == LocalReply(h[..n])
  {
    PrefixWellFormed(h, n);
    LocalIsTrue(h[..n]);
    RedisIsTrue(h[..n]);
  }

  lemma {:induction false} PrefixWellFormed(h: seq<Event>, n: nat)
    requires WellFormed(h) && n <= |h|
    ensures WellFormed(h[..n])
  {
    if n < |h| {
      assert h[..|h| - 1][..n] == h[..n];
      PrefixWellFormed(h[..|h| - 1], n);
    } else {
      assert h[..n] == h;
    }
  }

  /** A Join whose transaction succeeded is told the truth exactly if, for each other role, what was lost
      there does not turn nobody into somebody or somebody into nobody. */
  lemma JoinIsTrueExactly(h: seq<Event>, out: seq<Outcome>)
    requires WellFormed(h) && |h| == |out| > 0 && h[|h| - 1].Join? && out[|h| - 1].Done?
    ensures var e := h[|h| - 1];
            RedisReply(h, out) == TrueReply(h) <==>
            forall k | k != e.role ::
              var n := |Members(Live(h), e.room, k)|;
              n > 0 <==> n + Lost(h, out, e.room, k) > 0
  {
    RedisCounts(h, out);
    var e := h[|h| - 1];
    forall k | k != e.role
      ensures Count(RedisRun(h, out), e.room, k) == |Members(Live(h), e.room, k)| + Lost(h, out, e.room, k)
      ensures k in RedisReply(h, out).others <==> Count(RedisRun(h, out), e.room, k) > 0
      ensures k in TrueReply(h).others <==> |Members(Live(h), e.room, k)| > 0
    {
      assert Members(Live(h), e.room, k) != {} <==> |Members(Live(h), e.room, k)| > 0;
    }
    assert e.role !in RedisReply(h, out).others && e.role !in TrueReply(h).others;
  }

  /** As long as Joins succeed, a Leave reports the room empty exactly if it succeeds, nobody is present,
      and no Leave of this room was ever lost. */
  lemma EmptyIsReportedExactly(h: seq<Event>, out: seq<Outcome>)
    requires WellFormed(h) && |h| == |out| > 0 && h[|h| - 1].Leave? && JoinsSucceed(h, out)
    ensures var room := h[|h| - 1].room;
            RedisReply(h, out) == Left(true) <==> out[|h| - 1].Done? && !Occupied(h, room) && NoneLost(h, out, room)
  {
    VacantExactly(h, out, h[|h| - 1].room);
  }

  lemma VacantExactly(h: seq<Event>, out: seq<Outcome>, room: RoomId)
    requires WellFormed(h) && |h| == |out| && JoinsSucceed(h, out)
    ensures Vacant(RedisRun(h, out), room) <==> !Occupied(h, room) && NoneLost(h, out, room)
  {
    var c := RedisRun(h, out);
    RedisCounts(h, out);
    forall role: Role
      ensures Count(c, room, role) >= |Members(Live(h), room, role)|
      ensures Count(c, room, role) == |Members(Live(h), room, role)| <==> NoneLostAt(h, out, room, role)
    {
      LostLeaves(h, out, room, role);
    }
    VacantMeansUnoccupied(h, c, room);
    if Vacant(c, room) {
      forall role: Role ensures NoneLostAt(h, out, room, role) { assert Count(c, room, role) <= 0; }
    }
  }

  /** "Empty" is never reported while a connection is present, whichever Leaves failed. */
  lemma FailedLeavesAreSafe(h: seq<Event>, out: seq<Outcome>)
    requires WellFormed(h) && |h| == |out| > 0 && JoinsSucceed(h, out)
    ensures RedisReply(h, out) == Left(true) ==> !Occupied(h, h[|h| - 1].room)
  {
    if h[|h| - 1].Leave? {
      EmptyIsReportedExactly(h, out);
    }
  }

  /** ... but a Leave that was not applied is more than a delay of the signal: no later Leave of its room
      reports it empty either, while the key lives. */
  lemma LostLeaveSilencesRoom(h: seq<Event>, out: seq<Outcome>, i: nat)
    requires WellFormed(h) && |h| == |out| > 0 && JoinsSucceed(h, out)
    requires i < |h| && h[i].Leave? && h[i].room == h[|h| - 1].room && out[i] == Failed(false)
    ensures RedisReply(h, out) != Left(true)
  {
    if h[|h| - 1].Leave? {
      assert !NoneLostAt(h, out, h[i].room, h[i].role);
      EmptyIsReportedExactly(h, out);
    }
  }

  /** RedisPresence claims to mirror LocalPresence exactly. A Leave keeps two stores with equal
      counts equal exactly when it is matched by a Join, that is, when the count is positive. */
  lemma LeaveAgreesExactlyWhenMatched(local: Counts, redis: Counts, room: RoomId, role: Role)
    requires Tidy(local)
    requires forall r, k :: Count(local, r, k) == Count(redis, r, k)
    ensures (forall r, k :: Count(LocalLeave(local, room, role), r, k) == Count(Add(redis, room, role, -1), r, k))
            <==> Count(local, room, role) > 0
  {
    LocalLeaveCounts(local, room, role);
    AddCounts(redis, room, role, -1);
    if Count(local, room, role) <= 0 {
      assert Count(LocalLeave(local, room, role), room, role) != Count(Add(redis, room, role, -1), room, role);
    }
  }

  lemma RedisMore(h: seq<Event>, out: seq<Outcome>, e: Event, o: Outcome)
    requires |h| == |out|
    ensures RedisRun(h + [e], out + [o]) ==
            if o == Failed(false) then RedisRun(h, out) else Add(RedisRun(h, out), e.room, e.role, if e.Join? then 1 else -1)
  {
    assert (h + [e])[..|h|] == h && (out + [o])[..|out|] == out;
  }

  lemma LiveMore(h: seq<Event>, e: Event)
    ensures Live(h + [e]) == if e.Join? then Live(h)[e.peer := Place(e.room, e.role)] else Live(h) - {e.peer}
    ensures Seen(h + [e]) == Seen(h) + {e.peer}
    ensures WellFormed(h) && (if e.Join? then e.peer !in Seen(h) else e.peer in Live(h) && Live(h)[e.peer] == Place(e.room, e.role)) ==>
              WellFormed(h + [e])
  {
    var g := h + [e];
    assert g[..|h|] == h;
    assert g[|h|].peer == e.peer;
    forall p | p in Seen(h) ensures p in Seen(g) {
      var i :| 0 <= i < |h| && h[i].peer == p;
      assert g[i].peer == p;
    }
  }

  /** An agent whose Join was not applied leaves; the next agent and a phone then join without errors. */
  const LOST_JOIN: seq<Event> := [Join(1, 0, Agent)] + [Leave(1, 0, Agent)] + [Join(2, 0, Agent)] + [Join(3, 0, Phone)]
  const LOST_OUTCOMES: seq<Outcome> := [Failed(false)] + [Done] + [Done] + [Done]

  lemma LostJoinRun()
    ensures Count(RedisRun(LOST_JOIN, LOST_OUTCOMES), 0, Agent) == 0
  {
    var h1: seq<Event>, o1: seq<Outcome> := [Join(1, 0, Agent)], [Failed(false)];
    var h2, o2 := h1 + [Leave(1, 0, Agent)], o1 + [Done];
    assert [] + h1 == h1 && [] + o1 == o1;
    RedisMore([], [], Join(1, 0, Agent), Failed(false));
    RedisMore(h1, o1, Leave(1, 0, Agent), Done);
    RedisMore(h2, o2, Join(2, 0, Agent), Done);
    RedisMore(h2 + [Join(2, 0, Agent)], o2 + [Done], Join(3, 0, Phone), Done);
  }

  lemma LostJoinLive()
    ensures WellFormed(LOST_JOIN) && Live(LOST_JOIN) == map[2 := Place(0, Agent), 3 := Place(0, Phone)]
  {
    var h1: seq<Event> := [Join(1, 0, Agent)];
    var h2 := h1 + [Leave(1, 0, Agent)];
    assert [] + h1 == h1;
    LiveMore([], Join(1, 0, Agent));
    LiveMore(h1, Leave(1, 0, Agent));
    LiveMore(h2, Join(2, 0, Agent));
    LiveMore(h2 + [Join(2, 0, Agent)], Join(3, 0, Phone));
  }

  /** The later cost of a Leave whose Join was lost: the next agent, present and counted without an
      error, is invisible to its phone. */
  lemma LostJoinHidesNextPeer()
    ensures WellFormed(LOST_JOIN)
    ensures TrueReply(LOST_JOIN) == Present({Agent})
    ensures RedisReply(LOST_JOIN, LOST_OUTCOMES) == Present({})
  {
    LostJoinRun();
    LostJoinLive();
    assert LOST_JOIN[3] == Join(3, 0, Phone) && LOST_OUTCOMES[3] == Done;
    assert 2 in Members(Live(LOST_JOIN), 0, Agent);
  }

  // ---------- the room-ended signal ----------

  /** The i-th event of the history is a Leave that reports the room empty. */
  ghost predicate Fires(h: seq<Event>, i: nat, room: RoomId)
    requires i < |h|
  {
    h[i].Leave? && h[i].room == room && LocalReply(h[..i + 1]) == Left(true)
  }

  /** The signal fires at exactly the events that take the room from occupied to unoccupied. */
  lemma FiresOncePerEmptying(h: seq<Event>, i: nat, room: RoomId)
    requires WellFormed(h) && i < |h|
    ensures Fires(h, i, room) <==> Occupied(h[..i], room) && !Occupied(h[..i + 1], room)
  {
    PrefixWellFormed(h, i + 1);
    LocalIsTrue(h[..i + 1]);
    assert h[..i + 1][..i] == h[..i];
    var e := h[i];
    if Occupied(h[..i], room) && !Occupied(h[..i + 1], room) {
      var p :| p in Live(h[..i]) && Live(h[..i])[p].room == room;
      assert p in Live(h[..i + 1]) ==> Live(h[..i + 1])[p].room != room;
      LiveIsSeen(h[..i]);
    }
    if e.Leave? && e.room == room {
      assert e.peer in Live(h[..i]) && Live(h[..i])[e.peer].room == room;
    }
  }

  /** A room that becomes occupied was joined in between. */
  lemma {:induction false} OccupiedNeedsJoin(h: seq<Event>, i: nat, j: nat, room: RoomId) returns (k: nat)
    requires WellFormed(h) && i <= j <= |h|
    requires !Occupied(h[..i], room) && Occupied(h[..j], room)
    ensures i <= k < j && h[k].Join? && h[k].room == room
  {
    assert h[..j][..j - 1] == h[..j - 1];
    PrefixWellFormed(h, j);
    if Occupied(h[..j - 1], room) {
      k := OccupiedNeedsJoin(h, i, j - 1, room);
    } else {
      k := j - 1;
      var p :| p in Live(h[..j]) && Live(h[..j])[p].room == room;
      assert p !in Live(h[..j - 1]) || Live(h[..j - 1])[p].room != room;
    }
  }

  /** Between two firings for a room some connection joined it. */
  lemma JoinBetweenFirings(h: seq<Event>, i: nat, j: nat, room: RoomId)
    requires WellFormed(h) && i < j < |h|
    requires Fires(h, i, room) && Fires(h, j, room)
    ensures exists k :: i < k < j && h[k].Join? && h[k].room == room
  {
    FiresOncePerEmptying(h, i, room);
    FiresOncePerEmptying(h, j, room);
    var k := OccupiedNeedsJoin(h, i + 1, j, room);
  }

  /** How often the room has gone from occupied to empty. */
  ghost function Emptyings(h: seq<Event>, room: RoomId): nat {
    if h == [] then 0
    else
      var e := h[|h| - 1];
      Emptyings(h[..|h| - 1], room) + if e.Leave? && e.room == room && !Occupied(h, room) then 1 else 0
  }

  /** ... by a Leave that succeeded, with no Leave of the room lost so far. */
  ghost function Heard(h: seq<Event>, out: seq<Outcome>, room: RoomId): nat
    requires |h| == |out|
  {
    if h == [] then 0
    else
      var last := |h| - 1;
      Heard(h[..last], out[..last], room) +
      if h[last].Leave? && h[last].room == room && !Occupied(h, room) && out[last].Done? && NoneLost(h, out, room) then 1 else 0
  }

  /** The i-th event empties the room. */
  ghost predicate Empties(h: seq<Event>, i: nat, room: RoomId)
    requires i < |h|
  {
    h[i].Leave? && h[i].room == room && !Occupied(h[..i + 1], room)
  }

  ghost predicate HeardAt(h: seq<Event>, out: seq<Outcome>, i: nat, room: RoomId)
    requires |h| == |out| && i < |h|
  {
    out[i].Done? && NoneLost(h[..i + 1], out[..i + 1], room)
  }

  /** Every emptying is heard of exactly if each one's Leave succeeds and comes before any lost Leave. */
  lemma {:induction false} AllHeardExactly(h: seq<Event>, out: seq<Outcome>, room: RoomId)
    requires |h| == |out|
    ensures Heard(h, out, room) <= Emptyings(h, room)
    ensures Heard(h, out, room) == Emptyings(h, room) <==> forall i: nat | i < |h| && Empties(h, i, room) :: HeardAt(h, out, i, room)
  {
    if h != [] {
      var last := |h| - 1;
      var before, sofar := h[..last], out[..last];
      AllHeardExactly(before, sofar, room);
      assert h[..last + 1] == h && out[..last + 1] == out;
      forall i: nat | i < last
        ensures Empties(h, i, room) <==> Empties(before, i, room)
        ensures HeardAt(h, out, i, room) <==> HeardAt(before, sofar, i, room)
      {
        assert before[..i + 1] == h[..i + 1] && sofar[..i + 1] == out[..i + 1];
      }
      if Empties(h, last, room) && !HeardAt(h, out, last, room) {
        assert Heard(h, out, room) < Emptyings(h, room);
      }
    }
  }
}
