/** Users, logins and the revocation of refresh tokens by a version counter.

    Refresh never looks at the disabled flag. That a disabled user cannot refresh rests on the version:
    disabling raises it, and whatever was read or issued earlier carries an older one. The step
    system cuts every handler between its read of the user and its issuing of tokens.
 */
module Identity {
  import opened Rooms
  import opened Auth

  type Email = string
  type CallId = nat

  datatype User = User(org: OrgId, email: Email, password: string, disabled: bool, version: nat)

  type Users = map<UserId, User>

  /** A handler between its read and its issuing. */
  datatype Call = Call(user: UserId, org: OrgId, version: nat)

  // ---------- emails ----------

  /** What the alphabet says of letters and spaces: lower case is lower case already, and a space is one in
      either case. */
  datatype Letters = Letters(lower: char -> char, space: char -> bool) {
    ghost predicate Valid() {
      forall c :: lower(lower(c)) == lower(c) && space(lower(c)) == space(c)
    }
  }

  function Lower(l: Letters, e: Email): Email {
    seq(|e|, i requires 0 <= i < |e| => l.lower(e[i]))
  }

  function Trim(l: Letters, e: Email): (t: Email)
    ensures t == [] || (!l.space(t[0]) && !l.space(t[|t| - 1]))
    decreases |e|
  {
    if e != [] && l.space(e[0]) then Trim(l, e[1..])
    else if e != [] && l.space(e[|e| - 1]) then Trim(l, e[..|e| - 1])
    else e
  }

  /** Trim takes away all the outer spaces and nothing else. */
  lemma {:induction false} TrimExactly(l: Letters, e: Email) returns (i: nat, j: nat)
    ensures i <= j <= |e| && Trim(l, e) == e[i..j]
    ensures forall k | 0 <= k < i || j <= k < |e| :: l.space(e[k])
    ensures i < j ==> !l.space(e[i]) && !l.space(e[j - 1])
    decreases |e|
  {
    if e != [] && l.space(e[0]) {
      i, j := TrimExactly(l, e[1..]);
      i, j := i + 1, j + 1;
    } else if e != [] && l.space(e[|e| - 1]) {
      i, j := TrimExactly(l, e[..|e| - 1]);
      assert e[..|e| - 1][i..j] == e[i..j];
    } else {
      i, j := 0, |e|;
      assert e[0..|e|] == e;
    }
  }

  /** normalizeEmail. */
  function Normalize(l: Letters, e: Email): Email {
    Lower(l, Trim(l, e))
  }

  /** A normalized email is in lower case and is not changed by normalizing it again, so the one the
      service looks up is one the index on lower(email) can hold. */
  lemma NormalizedIsLower(l: Letters, e: Email)
    requires l.Valid()
    ensures Lower(l, Normalize(l, e)) == Normalize(l, e) && Normalize(l, Normalize(l, e)) == Normalize(l, e)
  {
    var t := Trim(l, e);
    assert Lower(l, Lower(l, t)) == Lower(l, t);
    assert Lower(l, t) == [] || (!l.space(Lower(l, t)[0]) && !l.space(Lower(l, t)[|t| - 1]));
    assert Trim(l, Lower(l, t)) == Lower(l, t);
  }

  /** Spaces around an email and its letter case do not matter, and nothing else does: an email without outer
      spaces, put between spaces, is found under its lower case. */
  lemma {:induction false} NormalizedExactly(l: Letters, before: Email, e: Email, after: Email)
    requires forall c | c in before || c in after :: l.space(c)
    requires e == [] || (!l.space(e[0]) && !l.space(e[|e| - 1]))
    ensures Normalize(l, before + e + after) == seq(|e|, k requires 0 <= k < |e| => l.lower(e[k]))
    decreases |before| + |after|
  {
    var all := before + e + after;
    if before != [] {
      assert all[1..] == before[1..] + e + after;
      NormalizedExactly(l, before[1..], e, after);
    } else if after != [] && e != [] {
      assert all[..|all| - 1] == before + e + after[..|after| - 1];
      assert all[|all| - 1] == after[|after| - 1] && all[0] == e[0];
      NormalizedExactly(l, before, e, after[..|after| - 1]);
    } else if after != [] {
      assert all == after && all[1..] == before + e + after[1..];
      NormalizedExactly(l, before, e, after[1..]);
    } else {
      assert all == e;
    }
  }

  // ---------- SQL ----------

  /** One statement: the flag, and one more on the version when disabling. */
  function SetFlag(users: Users, org: OrgId, u: UserId, disabled: bool): Users {
    if u in users && users[u].org == org
    then users[u := users[u].(disabled := disabled, version := users[u].version + if disabled then 1 else 0)]
    else users
  }

  function Bump(users: Users, org: OrgId, u: UserId): Users {
    if u in users && users[u].org == org then users[u := users[u].(version := users[u].version + 1)] else users
  }

  // ---------- the handlers, one call at a time ----------

  datatype LoginError = InvalidCredentials | AccountDisabled | InvalidToken | NoSuchUser | Revoked | StoreFailed

  datatype Pair = Pair(access: Token, refresh: Token)

  function PairFor(i: Issuer, u: UserId, user: User, now: Time): Pair {
    Pair(Issue(i, Access, u, user.org, user.version, now), Issue(i, Refresh, u, user.org, user.version, now))
  }

  /** The refresh handler's checks, in its order. */
  function CheckRefresh(i: Issuer, users: Users, t: Token, now: Time): Result<UserId, LoginError> {
    var c := Parse(i, t, now);
    if c.None? || !c.value.kind.Refresh? || c.value.subject.None? || c.value.org.None? then Err(InvalidToken)
    else
      var u := c.value.subject.value;
      if u !in users || users[u].org != c.value.org.value then Err(NoSuchUser)
      else if c.value.ver != users[u].version then Err(Revoked)
      else Ok(u)
  }

  class Handlers {
    const issuer: Issuer
    const letters: Letters
    var users: Users

    /** The index on lower(email): no two users share one. */
    ghost predicate Valid()
      reads this
    {
      forall u, v | u in users && v in users && Lower(letters, users[u].email) == Lower(letters, users[v].email) :: u == v
    }

    constructor (issuer: Issuer, letters: Letters)
      ensures Valid() && this.issuer == issuer && this.letters == letters && users == map[]
    {
      this.issuer, this.letters := issuer, letters;
      users := map[];
    }

    /** A login succeeds exactly for a user with this email, in any case and spacing, and this password
        who is not disabled; the password is checked before the flag. */
    method Login(email: Email, password: string, now: Time, readFails: bool) returns (r: Result<Pair, LoginError>)
      requires Valid()
      ensures readFails ==> r == Err(StoreFailed)
      ensures forall u | u in users && Lower(letters, users[u].email) == Normalize(letters, email) && !readFails ::
                r == if users[u].password != password then Err(InvalidCredentials)
                     else if users[u].disabled then Err(AccountDisabled)
                     else Ok(PairFor(issuer, u, users[u], now))
      ensures (forall u | u in users :: Lower(letters, users[u].email) != Normalize(letters, email)) && !readFails ==> r == Err(InvalidCredentials)
      ensures r.Ok? ==> exists u | u in users ::
                && Lower(letters, users[u].email) == Normalize(letters, email) && users[u].password == password && !users[u].disabled
                && r.value.access == Token(issuer.key, Claims(Some(u), Some(users[u].org), users[u].version, None, None, Kind.Access, Seconds(now + issuer.accessTtl)))
                && r.value.refresh == Token(issuer.key, Claims(Some(u), Some(users[u].org), users[u].version, None, None, Kind.Refresh, Seconds(now + issuer.refreshTtl)))
    {
      if readFails {
        return Err(StoreFailed);
      }
      var key := Normalize(letters, email);
      if !exists u | u in users :: Lower(letters, users[u].email) == key {
        return Err(InvalidCredentials);
      }
      var u :| u in users && Lower(letters, users[u].email) == key;
      if users[u].password != password {
        return Err(InvalidCredentials);
      }
      if users[u].disabled {
        return Err(AccountDisabled);
      }
      return Ok(PairFor(issuer, u, users[u], now));
    }

    /** A fresh pair carries the stored version, so it can be refreshed in turn, but not by its access
        token. A failed read is answered like a missing user. */
    method Refresh(t: Token, now: Time, readFails: bool) returns (r: Result<Pair, LoginError>)
      ensures var check := CheckRefresh(issuer, if readFails then map[] else users, t, now);
              if check.Err? then r == Err(check.error)
              else r.Ok? && check.value in users && r.value == PairFor(issuer, check.value, users[check.value], now)
      ensures var c := t.claims;
              var genuine := t.key == issuer.key && now < c.expires && c.kind.Refresh? && c.subject.Some? && c.org.Some?;
              var found := !readFails && genuine && c.subject.value in users && users[c.subject.value].org == c.org.value;
              && (!genuine <==> r == Err(InvalidToken))
              && (genuine && !found <==> r == Err(NoSuchUser))
              && (found && c.ver != users[c.subject.value].version <==> r == Err(Revoked))
              && (found && c.ver == users[c.subject.value].version <==> r.Ok?)
              && (r.Ok? ==>
                    && r.value.access == Token(issuer.key, Claims(c.subject, c.org, c.ver, None, None, Kind.Access, Seconds(now + issuer.accessTtl)))
                    && r.value.refresh == Token(issuer.key, Claims(c.subject, c.org, c.ver, None, None, Kind.Refresh, Seconds(now + issuer.refreshTtl))))
      ensures r.Ok? && now < r.value.refresh.claims.expires ==>
                CheckRefresh(issuer, users, r.value.refresh, now) == Ok(t.claims.subject.value)
      ensures r.Ok? ==> CheckRefresh(issuer, users, r.value.access, now) == Err(InvalidToken)
    {
      var c := Parse(issuer, t, now);
      if c.None? || !c.value.kind.Refresh? {
        return Err(InvalidToken);
      }
      if c.value.subject.None? || c.value.org.None? {
        return Err(InvalidToken);
      }
      var u := c.value.subject.value;
      if readFails || u !in users || users[u].org != c.value.org.value {
        return Err(NoSuchUser);
      }
      if c.value.ver != users[u].version {
        return Err(Revoked);
      }
      return Ok(PairFor(issuer, u, users[u], now));
    }

    /** Raises this user's version and changes nothing else: every refresh token issued to the user so
        far is refused from now on. */
    method Logout(org: OrgId, u: UserId, fails: bool) returns (ok: bool)
      requires Valid()
      modifies this
      ensures Valid() && users == (if fails then old(users) else Bump(old(users), org, u))
      ensures users.Keys == old(users).Keys && users - {u} == old(users) - {u} && ok == !fails
      ensures u in users ==> OnlyVersion(old(users)[u], users[u])
      ensures ok && u in users && users[u].org == org ==>
                && users[u].version == old(users)[u].version + 1
                && forall t: Token, at | t.claims.subject == Some(u) && t.claims.ver <= old(users)[u].version ::
                     CheckRefresh(issuer, users, t, at).Err?
      ensures u in users && users[u].org != org ==> users[u] == old(users)[u]
    {
      if fails {
        return false;
      }
      users := Bump(users, org, u);
      return true;
    }

    /** Fails exactly on a store error or if the organization has no such user. Disabling also refuses
        every refresh token issued to the user so far; enabling leaves the version as it is. */
    method SetDisabled(org: OrgId, u: UserId, disabled: bool, fails: bool) returns (ok: bool)
      requires Valid()
      modifies this
      ensures Valid() && users == (if fails then old(users) else SetFlag(old(users), org, u, disabled))
      ensures users.Keys == old(users).Keys && users - {u} == old(users) - {u}
      ensures ok <==> !fails && u in users && users[u].org == org
      ensures !ok ==> users == old(users)
      ensures ok ==>
                && users[u].disabled == disabled && OnlyVersion(old(users)[u].(disabled := disabled), users[u])
                && users[u].version == old(users)[u].version + (if disabled then 1 else 0)
      ensures ok && disabled ==>
                forall t: Token, at | t.claims.subject == Some(u) && t.claims.ver <= old(users)[u].version ::
                  CheckRefresh(issuer, users, t, at).Err?
    {
      if fails {
        return false;
      }
      ok := u in users && users[u].org == org;
      users := SetFlag(users, org, u, disabled);
    }
  }

  /** A user whose version may have been raised and who is otherwise the same. */
  predicate OnlyVersion(before: User, after: User) {
    after == before.(version := after.version) && after.version >= before.version
  }

  /** The three kinds of tokens stand for three different rights: only a refresh token passes the refresh
      check, and only a join token passes the endpoint's. */
  lemma KindsDoNotMix(i: Issuer, users: Users, t: Token, now: Time)
    ensures CheckRefresh(i, users, t, now).Ok? ==> t.claims.kind.Refresh?
    ensures ParseSignaling(i, t, now).Some? ==> t.claims.kind.Signaling?
    ensures forall room, role, at :: t == IssueSignaling(i, room, role, at) ==> CheckRefresh(i, users, t, now) == Err(InvalidToken)
    ensures forall kind, u, org, ver, at :: t == Issue(i, kind, u, org, ver, at) && !kind.Signaling? ==>
              ParseSignaling(i, t, now) == None && (kind.Access? ==> CheckRefresh(i, users, t, now) == Err(InvalidToken))
  {
  }

  // ---------- interleaved ----------

  datatype State = State(now: Time, users: Users, calls: map<CallId, Call>, issued: set<Token>)

  const START := State(0.0, map[], map[], {})

  datatype Step =
    | Tick(d: Time)
    | Register(t: CallId, u: UserId, org: OrgId, email: Email, password: string)
    | CreateUser(u: UserId, org: OrgId, email: Email, password: string)
    | LoginRead(t: CallId, u: UserId)
    | RefreshRead(t: CallId, token: Token)
    | IssuePair(t: CallId)
    | Logout(org: OrgId, u: UserId)
    | SetDisabled(org: OrgId, u: UserId, disabled: bool)

  predicate Enabled(i: Issuer, s: State, step: Step) {
    match step
    case Tick(d) => d >= 0.0
    case Register(t, u, _, _, _) => u !in s.users && t !in s.calls
    case CreateUser(u, _, _, _) => u !in s.users
    case LoginRead(t, u) => t !in s.calls && u in s.users && !s.users[u].disabled
    case RefreshRead(t, token) => t !in s.calls && token in s.issued && CheckRefresh(i, s.users, token, s.now).Ok?
    case IssuePair(t) => t in s.calls
    case Logout(_, _) => true
    case SetDisabled(_, _, _) => true
  }

  function Apply(i: Issuer, s: State, step: Step): State
    requires Enabled(i, s, step)
  {
    match step
    case Tick(d) => s.(now := s.now + d)
    case Register(t, u, org, email, password) =>
      s.(users := s.users[u := User(org, email, password, false, 0)], calls := s.calls[t := Call(u, org, 0)])
    case CreateUser(u, org, email, password) => s.(users := s.users[u := User(org, email, password, false, 0)])
    case LoginRead(t, u) => s.(calls := s.calls[t := Call(u, s.users[u].org, s.users[u].version)])
    case RefreshRead(t, token) =>
      var u := CheckRefresh(i, s.users, token, s.now).value;
      s.(calls := s.calls[t := Call(u, s.users[u].org, s.users[u].version)])
    case IssuePair(t) =>
      var call := s.calls[t];
      s.(calls := s.calls - {t},
         issued := s.issued + {Issue(i, Access, call.user, call.org, call.version, s.now),
                               Issue(i, Refresh, call.user, call.org, call.version, s.now)})
    case Logout(org, u) => s.(users := Bump(s.users, org, u))
    case SetDisabled(org, u, disabled) => s.(users := SetFlag(s.users, org, u, disabled))
  }

  ghost predicate ValidRun(i: Issuer, run: seq<Step>)
    decreases |run|, 0
  {
    run == [] || (ValidRun(i, run[..|run| - 1]) && Enabled(i, After(i, run[..|run| - 1]), run[|run| - 1]))
  }

  ghost function After(i: Issuer, run: seq<Step>): State
    requires ValidRun(i, run)
    decreases |run|, 1
  {
    if run == [] then START else Apply(i, After(i, run[..|run| - 1]), run[|run| - 1])
  }

  /** A version read from the user's row: not newer than the stored one, and older while disabled. */
  predicate Dated(users: Users, u: UserId, org: OrgId, ver: int) {
    && u in users && users[u].org == org
    && ver <= users[u].version
    && (users[u].disabled ==> ver < users[u].version)
  }

  predicate TokenDated(users: Users, t: Token) {
    t.claims.subject.Some? && t.claims.org.Some? && Dated(users, t.claims.subject.value, t.claims.org.value, t.claims.ver)
  }

  ghost predicate Inv(s: State) {
    && (forall t | t in s.calls :: Dated(s.users, s.calls[t].user, s.calls[t].org, s.calls[t].version))
    && forall t | t in s.issued :: TokenDated(s.users, t)
  }

  /** A row only gets newer. */
  predicate Newer(users: Users, users': Users, u: UserId) {
    u in users ==> u in users' && users'[u].org == users[u].org && users[u].version <= users'[u].version
  }

  lemma StepInv(i: Issuer, s: State, step: Step)
    requires Inv(s) && Enabled(i, s, step)
    ensures Inv(Apply(i, s, step))
  {
  }

  lemma {:induction false} RunInv(i: Issuer, run: seq<Step>)
    requires ValidRun(i, run)
    ensures Inv(After(i, run))
  {
    if run != [] {
      RunInv(i, run[..|run| - 1]);
      StepInv(i, After(i, run[..|run| - 1]), run[|run| - 1]);
    }
  }

  lemma {:induction false} Prefix(i: Issuer, run: seq<Step>, n: nat, u: UserId)
    requires ValidRun(i, run) && n <= |run|
    ensures ValidRun(i, run[..n]) && Newer(After(i, run[..n]).users, After(i, run).users, u)
  {
    if n == |run| {
      assert run[..n] == run;
    } else {
      var before := run[..|run| - 1];
      assert before[..n] == run[..n];
      Prefix(i, before, n, u);
    }
  }

  /** Disabled means unable to log in or refresh: whatever token was ever issued, in any state of any
      run, no login and no refresh of a disabled user is accepted. */
  lemma DisabledCannotRefresh(i: Issuer, run: seq<Step>, u: UserId, t: CallId, token: Token)
    requires ValidRun(i, run)
    requires u in After(i, run).users && After(i, run).users[u].disabled
    requires token in After(i, run).issued && token.claims.subject == Some(u)
    ensures !Enabled(i, After(i, run), LoginRead(t, u))
    ensures !Enabled(i, After(i, run), RefreshRead(t, token))
    ensures CheckRefresh(i, After(i, run).users, token, After(i, run).now) in {Err(InvalidToken), Err(Revoked)}
  {
    RunInv(i, run);
    assert TokenDated(After(i, run).users, token);
  }

  /** A version once refused stays refused. */
  lemma RefusedStaysRefused(i: Issuer, run: seq<Step>, n: nat, token: Token)
    requires ValidRun(i, run) && n <= |run| && ValidRun(i, run[..n])
    requires token in After(i, run[..n]).issued
    requires CheckRefresh(i, After(i, run[..n]).users, token, After(i, run[..n]).now) == Err(Revoked)
    ensures CheckRefresh(i, After(i, run).users, token, After(i, run).now) in {Err(InvalidToken), Err(Revoked)}
  {
    RunInv(i, run[..n]);
    assert TokenDated(After(i, run[..n]).users, token);
    Prefix(i, run, n, token.claims.subject.value);
  }

  /** Disabling revokes for good: whatever was issued or being issued at that moment never refreshes
      again, even after the user is enabled once more. */
  lemma DisablingRevokesForGood(i: Issuer, run: seq<Step>, n: nat, org: OrgId, u: UserId, ver: nat)
    requires ValidRun(i, run) && n < |run| && ValidRun(i, run[..n]) && run[n] == SetDisabled(org, u, true)
    requires var s := After(i, run[..n]);
             u in s.users && s.users[u].org == org
             && ((exists t | t in s.calls :: s.calls[t] == Call(u, org, ver))
                 || (exists t | t in s.issued :: t.claims.subject == Some(u) && t.claims.ver == ver))
    ensures u in After(i, run).users && ver < After(i, run).users[u].version
    ensures forall token: Token | token.claims.subject == Some(u) && token.claims.ver == ver ::
              CheckRefresh(i, After(i, run).users, token, After(i, run).now).Err?
  {
    RunInv(i, run[..n]);
    assert run[..n + 1][..n] == run[..n];
    Prefix(i, run, n + 1, u);
  }

  // ---------- what is issued ----------

  predicate IsRead(step: Step, t: CallId) {
    (step.Register? || step.LoginRead? || step.RefreshRead?) && step.t == t
  }

  /** The user a handler has read at a step: the one it registers, the one who logs in, or the subject of the
      token it refreshes. */
  function UserOf(step: Step): UserId
    requires step.Register? || step.LoginRead? || (step.RefreshRead? && step.token.claims.subject.Some?)
  {
    match step
    case Register(_, u, _, _, _) => u
    case LoginRead(_, u) => u
    case RefreshRead(_, token) => token.claims.subject.value
  }

  /** The m-th step of the run is t's read of a user. */
  ghost predicate ReadAt(i: Issuer, run: seq<Step>, m: nat, t: CallId) {
    && m < |run| && IsRead(run[m], t) && (run[m].RefreshRead? ==> run[m].token.claims.subject.Some?)
    && ValidRun(i, run[..m + 1]) && UserOf(run[m]) in After(i, run[..m + 1]).users
  }

  ghost function RowRead(i: Issuer, run: seq<Step>, m: nat, t: CallId): User
    requires ReadAt(i, run, m, t)
  {
    After(i, run[..m + 1]).users[UserOf(run[m])]
  }

  /** ... and t has issued nothing since, up to the n-th step. */
  ghost predicate Holds(i: Issuer, run: seq<Step>, m: nat, n: nat, t: CallId) {
    m < n <= |run| && ReadAt(i, run, m, t) && IssuePair(t) !in run[m + 1..n]
  }

  /** The n-th step issues this token, of one of the two kinds, for the user read at the m-th. */
  ghost predicate IssuedAt(i: Issuer, run: seq<Step>, m: nat, n: nat, token: Token) {
    && n < |run| && run[n].IssuePair? && Holds(i, run, m, n, run[n].t) && ValidRun(i, run[..n])
    && var u, user, now := UserOf(run[m]), RowRead(i, run, m, run[n].t), After(i, run[..n]).now;
       token in {Token(i.key, Claims(Some(u), Some(user.org), user.version, None, None, Kind.Access, Seconds(now + i.accessTtl))),
                 Token(i.key, Claims(Some(u), Some(user.org), user.version, None, None, Kind.Refresh, Seconds(now + i.refreshTtl)))}
  }

  lemma HoldsEarlier(i: Issuer, run: seq<Step>, m: nat, n: nat, t: CallId)
    requires run != [] && m < n < |run|
    ensures Holds(i, run, m, n, t) <==> Holds(i, run[..|run| - 1], m, n, t)
    ensures Holds(i, run, m, n, t) ==> RowRead(i, run, m, t) == RowRead(i, run[..|run| - 1], m, t)
  {
    var before := run[..|run| - 1];
    assert before[..m + 1] == run[..m + 1] && before[m] == run[m] && before[m + 1..n] == run[m + 1..n];
  }

  lemma IssuedEarlier(i: Issuer, run: seq<Step>, m: nat, n: nat, token: Token)
    requires run != [] && n < |run| - 1
    ensures IssuedAt(i, run, m, n, token) <==> IssuedAt(i, run[..|run| - 1], m, n, token)
  {
    assert run[..|run| - 1][..n] == run[..n] && run[..|run| - 1][n] == run[n];
    if m < n && run[n].IssuePair? {
      HoldsEarlier(i, run, m, n, run[n].t);
    }
  }

  lemma ReadOnce(i: Issuer, s: State, step: Step, t: CallId)
    requires Enabled(i, s, step) && IsRead(step, t)
    ensures step.RefreshRead? ==> step.token.claims.subject.Some?
    ensures var s', u := Apply(i, s, step), UserOf(step);
            t !in s.calls && u in s'.users && s'.calls == s.calls[t := Call(u, s'.users[u].org, s'.users[u].version)]
  {
  }

  lemma NoRead(i: Issuer, s: State, step: Step, t: CallId)
    requires Enabled(i, s, step) && !IsRead(step, t)
    ensures t in Apply(i, s, step).calls <==> t in s.calls && step != IssuePair(t)
    ensures t in Apply(i, s, step).calls ==> Apply(i, s, step).calls[t] == s.calls[t]
  {
  }

  ghost predicate CallHolds(i: Issuer, run: seq<Step>, m: nat, t: CallId)
    requires ValidRun(i, run) && Holds(i, run, m, |run|, t)
  {
    && t in After(i, run).calls
    && After(i, run).calls[t] == Call(UserOf(run[m]), RowRead(i, run, m, t).org, RowRead(i, run, m, t).version)
  }

  lemma HoldsOn(i: Issuer, run: seq<Step>, m: nat, t: CallId)
    requires run != [] && m < |run| - 1
    ensures Holds(i, run, m, |run|, t) <==> Holds(i, run[..|run| - 1], m, |run| - 1, t) && run[|run| - 1] != IssuePair(t)
  {
    var last := |run| - 1;
    HoldsEarlier(i, run, m, last, t);
    assert run[m + 1..|run|] == run[m + 1..last] + [run[last]];
  }

  /** A handler between its two steps holds what it has read. */
  lemma {:induction false} CallsExactly(i: Issuer, run: seq<Step>, t: CallId)
    requires ValidRun(i, run)
    ensures t in After(i, run).calls <==> exists m: nat :: Holds(i, run, m, |run|, t)
    ensures forall m: nat | Holds(i, run, m, |run|, t) :: CallHolds(i, run, m, t)
  {
    if run != [] {
      var last := |run| - 1;
      var before, step := run[..last], run[last];
      CallsExactly(i, before, t);
      assert run[..last + 1] == run;
      if IsRead(step, t) {
        ReadOnce(i, After(i, before), step, t);
        assert Holds(i, run, last, |run|, t);
      } else {
        NoRead(i, After(i, before), step, t);
        if t in After(i, run).calls {
          var m: nat :| Holds(i, before, m, last, t);
          HoldsOn(i, run, m, t);
        }
      }
      forall m: nat | Holds(i, run, m, |run|, t)
        ensures CallHolds(i, run, m, t)
      {
        if m < last {
          HoldsOn(i, run, m, t);
          HoldsEarlier(i, run, m, last, t);
        }
      }
    }
  }

  lemma IssuedLast(i: Issuer, run: seq<Step>, token: Token)
    requires run != [] && ValidRun(i, run) && run[|run| - 1].IssuePair?
    ensures token in After(i, run).issued <==>
            token in After(i, run[..|run| - 1]).issued || exists m: nat, n: nat | n == |run| - 1 :: IssuedAt(i, run, m, n, token)
  {
    var last := |run| - 1;
    var before, t := run[..last], run[last].t;
    CallsExactly(i, before, t);
    forall m: nat | m < last
      ensures Holds(i, run, m, last, t) <==> Holds(i, before, m, last, t)
      ensures Holds(i, run, m, last, t) ==> RowRead(i, run, m, t) == RowRead(i, before, m, t) && CallHolds(i, before, m, t)
    {
      HoldsEarlier(i, run, m, last, t);
    }
    var m: nat :| Holds(i, before, m, last, t);
    assert Holds(i, run, m, last, t);
    var call, now := After(i, before).calls[t], After(i, before).now;
    assert call == Call(UserOf(run[m]), RowRead(i, run, m, t).org, RowRead(i, run, m, t).version);
    if token in {Issue(i, Access, call.user, call.org, call.version, now), Issue(i, Kind.Refresh, call.user, call.org, call.version, now)} {
      assert IssuedAt(i, run, m, last, token);
    }
  }

  /** Tokens are issued in pairs, by the last step of a handler, for the user it has read, with that user's
      organization and the version read, from the moment they are issued: and no other token is. */
  lemma {:induction false} IssuedExactly(i: Issuer, run: seq<Step>, token: Token)
    requires ValidRun(i, run)
    ensures token in After(i, run).issued <==> exists m: nat, n: nat :: IssuedAt(i, run, m, n, token)
  {
    if run != [] {
      var last := |run| - 1;
      var before := run[..last];
      IssuedExactly(i, before, token);
      forall m: nat, n: nat | n < last
        ensures IssuedAt(i, run, m, n, token) <==> IssuedAt(i, before, m, n, token)
      {
        IssuedEarlier(i, run, m, n, token);
      }
      if token in After(i, before).issued {
        var m: nat, n: nat :| IssuedAt(i, before, m, n, token);
        assert IssuedAt(i, run, m, n, token);
      }
      if run[last].IssuePair? {
        IssuedLast(i, run, token);
      } else {
        assert After(i, run).issued == After(i, before).issued;
      }
    }
  }

  /** Registration answers with tokens that work: the newcomer's refresh token is accepted until it expires, the
      newcomer can log in, and nobody else's row or token has changed. */
  lemma NewcomerIsIn(i: Issuer, s: State, t: CallId, u: UserId, org: OrgId, email: Email, password: string, at: Time)
    requires Enabled(i, s, Register(t, u, org, email, password))
    ensures var registered := Apply(i, s, Register(t, u, org, email, password));
            var s' := Apply(i, registered, IssuePair(t));
            var token := Token(i.key, Claims(Some(u), Some(org), 0, None, None, Kind.Refresh, Seconds(s.now + i.refreshTtl)));
            && token in s'.issued && s.issued <= s'.issued
            && CheckRefresh(i, s'.users, token, at) == (if at < token.claims.expires then Ok(u) else Err(InvalidToken))
            && Enabled(i, s', LoginRead(t, u))
            && s'.users[u].email == email && s'.users[u].password == password && s'.users - {u} == s.users
  {
  }
}
