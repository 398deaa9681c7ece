/** Signed tokens. Signing is ideal: a token verifies under the key it was signed with and cannot be
    made without it. Claims are the JSON fields of both kinds of tokens; a field a token does not
    carry reads as its zero value.
 */
module Auth {
  import opened Rooms

  type Key = nat
  type UserId = nat
  type OrgId = nat

  datatype Kind = Access | Refresh | Signaling

  datatype Claims = Claims(
    subject: Option<UserId>, org: Option<OrgId>, ver: int,
    room: Option<RoomId>, peerRole: Option<Role>,
    kind: Kind, expires: Time)

  datatype Token = Token(key: Key, claims: Claims)

  datatype Issuer = Issuer(key: Key, accessTtl: Time, refreshTtl: Time, signalingTtl: Time)

  function Issue(i: Issuer, kind: Kind, user: UserId, org: OrgId, ver: int, now: Time): Token {
    var ttl := if kind.Refresh? then i.refreshTtl else i.accessTtl;
    Token(i.key, Claims(Some(user), Some(org), ver, None, None, kind, Seconds(now + ttl)))
  }

  function IssueSignaling(i: Issuer, room: RoomId, role: Role, now: Time): Token {
    Token(i.key, Claims(None, None, 0, Some(room), Some(role), Signaling, Seconds(now + i.signalingTtl)))
  }

  /** Signature and expiry; the kind is the caller's business. */
  function Parse(i: Issuer, t: Token, now: Time): Option<Claims> {
    if t.key == i.key && now < t.claims.expires then Some(t.claims) else None
  }

  function ParseSignaling(i: Issuer, t: Token, now: Time): Option<Claims> {
    var c := Parse(i, t, now);
    if c.Some? && c.value.kind.Signaling? then c else None
  }

  /** The endpoint's check: exactly this room and this role. */
  predicate Authorizes(i: Issuer, t: Token, room: RoomId, role: Role, now: Time) {
    var c := ParseSignaling(i, t, now);
    c.Some? && c.value.room == Some(room) && c.value.peerRole == Some(role)
  }

  /** What was issued is read back by the same issuer, strictly before its expiry and not on or after
      it (RFC 7519, section 4.1.4), and by no issuer with another key. */
  lemma IssueParseRoundTrip(i: Issuer, j: Issuer, kind: Kind, user: UserId, org: OrgId, ver: int, issued: Time, now: Time)
    ensures Parse(j, Issue(i, kind, user, org, ver, issued), now) ==
            if i.key == j.key && now < Seconds(issued + if kind.Refresh? then i.refreshTtl else i.accessTtl)
            then Some(Issue(i, kind, user, org, ver, issued).claims) else None
    ensures Issue(i, kind, user, org, ver, issued).claims.subject == Some(user)
            && Issue(i, kind, user, org, ver, issued).claims.org == Some(org)
            && Issue(i, kind, user, org, ver, issued).claims.ver == ver
            && Issue(i, kind, user, org, ver, issued).claims.kind == kind
  {
  }

  /** A token's times are the last whole second not after the moment meant. */
  lemma WholeSeconds(t: Time)
    ensures Seconds(t) <= t < Seconds(t) + 1.0 && Seconds(t) == Seconds(t).Floor as real
  {
    assert Seconds(t) == t.Floor as real;
  }

  /** A join token opens one room for one role, and an access or refresh token opens none. */
  lemma JoinTokensAreSpecific(i: Issuer, t: Token, room: RoomId, role: Role, now: Time)
    ensures Authorizes(i, t, room, role, now) <==>
            t.key == i.key && now < t.claims.expires && t.claims.kind == Signaling
            && t.claims.room == Some(room) && t.claims.peerRole == Some(role)
    ensures forall r, k, at :: t == IssueSignaling(i, r, k, at) ==>
              (Authorizes(i, t, room, role, now) <==> r == room && k == role && now < Seconds(at + i.signalingTtl))
    ensures forall kind, u, o, v, at :: t == Issue(i, kind, u, o, v, at) && !kind.Signaling? ==> !Authorizes(i, t, room, role, now)
  {
  }
}
