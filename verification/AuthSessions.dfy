// Opaque tokens: a cache that maps each live token to its user's JWT, beside the
// session rows that logoutAll goes through.
module AuthSessions {
  import opened Base

  type UserId = string
  type Token = string

  datatype Session = Session(user: UserId, access: Token, refresh: Token)

  datatype Account = Account(active: bool, locked: bool)

  /** `live` is the cache: token to the subject of its JWT. `issuedTo` records history:
      every token ever generated, and for whom. */
  datatype State = State(live: map<Token, UserId>, sessions: seq<Session>,
                         accounts: map<UserId, Account>, issuedTo: map<Token, UserId>)

  const EMPTY := State(map[], [], map[], map[])

  /** Which of the writes behind a new pair of tokens throws, if any. */
  datatype Fault = AtAccessMapping | AtRefreshMapping | AtSessionRow | AtAuditLog | NoFault

  datatype Op =
    | VerifyOtp(user: UserId, access: Token, refresh: Token, fault: Fault)   // the code was right
    | RefreshTokens(token: Token, verifies: bool, access: Token, refresh: Token, fault: Fault)
    | Logout(oldAccess: Token, oldRefresh: Token, who: UserId)
    | LogoutAll(who: UserId)
    | Expire(token: Token)                                          // the cache drops a mapping
    | SetAccount(user: UserId, account: Account)

  /** Random tokens: never generated before, and two different ones. */
  predicate Fresh(s: State, access: Token, refresh: Token) {
    access != refresh && access !in s.issuedTo && refresh !in s.issuedTo
  }

  predicate SavesRow(fault: Fault) {
    fault == AtAuditLog || fault == NoFault
  }

  /** Two mappings, then the session row: each only if nothing threw before. */
  function OpenSession(s: State, user: UserId, access: Token, refresh: Token, fault: Fault): State {
    s.(live := if fault == AtAccessMapping then s.live
               else if fault == AtRefreshMapping then s.live[access := user]
               else s.live[access := user][refresh := user],
       sessions := if SavesRow(fault) then s.sessions + [Session(user, access, refresh)] else s.sessions,
       issuedTo := s.issuedTo[access := user][refresh := user])
  }

  predicate MayRefresh(s: State, user: UserId) {
    user in s.accounts && s.accounts[user].active && !s.accounts[user].locked
  }

  function Keep(sessions: seq<Session>, user: UserId, access: Option<Token>): seq<Session> {
    if sessions == [] then []
    else
      var rest, r := Keep(sessions[..|sessions| - 1], user, access), sessions[|sessions| - 1];
      if r.user == user && (access.None? || r.access == access.value) then rest else rest + [r]
  }

  function Pair(r: Session): set<Token> {
    {r.access, r.refresh}
  }

  /** The tokens of a user's session rows. */
  function TokensOf(sessions: seq<Session>, user: UserId): set<Token> {
    set r, t | r in sessions && r.user == user && t in Pair(r) :: t
  }

  /** The operation goes as far as generating a new pair. */
  predicate Opens(s: State, op: Op) {
    match op
    case VerifyOtp(user, access, refresh, _) => Fresh(s, access, refresh)
    case RefreshTokens(token, verifies, access, refresh, _) =>
      token in s.live && verifies && MayRefresh(s, s.live[token]) && Fresh(s, access, refresh)
    case _ => false
  }

  function Step(s: State, op: Op): State {
    match op
    case VerifyOtp(user, access, refresh, fault) =>
      if Opens(s, op) then OpenSession(s, user, access, refresh, fault) else s
    case RefreshTokens(token, verifies, access, refresh, fault) =>
      if token !in s.live then s
      else
        var s' := s.(live := s.live - {token});
        if Opens(s, op) then OpenSession(s', s.live[token], access, refresh, fault) else s'
    case Logout(access, refresh, who) =>
      s.(live := s.live - {access} - {refresh}, sessions := Keep(s.sessions, who, Some(access)))
    case LogoutAll(who) =>
      s.(live := s.live - TokensOf(s.sessions, who), sessions := Keep(s.sessions, who, None))
    case Expire(token) => s.(live := s.live - {token})
    case SetAccount(user, account) => s.(accounts := s.accounts[user := account])
  }

  function Run(s: State, ops: seq<Op>): State {
    if ops == [] then s else Step(Run(s, ops[..|ops| - 1]), ops[|ops| - 1])
  }

  // ----- What the tables keep -----

  predicate Holds(r: Session, t: Token) {
    r.access == t || r.refresh == t
  }

  /** Every token generated once: rows and mappings name issued tokens, of their user, and
      no token stands in two rows or twice in one. */
  ghost predicate TokensAreUnique(s: State) {
    && (forall t :: t in s.live ==> t in s.issuedTo && s.issuedTo[t] == s.live[t])
    && (forall r :: r in s.sessions ==>
          r.access in s.issuedTo && r.refresh in s.issuedTo && r.access != r.refresh
          && s.issuedTo[r.access] == r.user && s.issuedTo[r.refresh] == r.user)
    && (forall r, q, t :: r in s.sessions && q in s.sessions && Holds(r, t) && Holds(q, t) ==> r == q)
  }

  ghost predicate HasRow(s: State, t: Token) {
    exists r :: r in s.sessions && Holds(r, t)
  }

  /** Every live mapping belongs to a session row; by TokensAreUnique, of its user. */
  ghost predicate LiveTokensHaveRows(s: State) {
    forall t :: t in s.live ==> HasRow(s, t)
  }

  lemma {:induction false} KeepHolds(sessions: seq<Session>, user: UserId, access: Option<Token>)
    ensures forall r :: r in Keep(sessions, user, access) <==>
      r in sessions && !(r.user == user && (access.None? || r.access == access.value))
  {
    if sessions == [] {
    } else {
      KeepHolds(sessions[..|sessions| - 1], user, access);
      assert sessions == sessions[..|sessions| - 1] + [sessions[|sessions| - 1]];
    }
  }

  lemma StepKeepsTokensUnique(s: State, op: Op)
    requires TokensAreUnique(s)
    ensures TokensAreUnique(Step(s, op))
  {
    match op
    case VerifyOtp(user, access, refresh, fault) =>
      if Opens(s, op) {
        OpenSessionKeepsTokensUnique(s, user, access, refresh, fault);
      }
    case RefreshTokens(token, verifies, access, refresh, fault) =>
      if Opens(s, op) {
        OpenSessionKeepsTokensUnique(s.(live := s.live - {token}), s.live[token], access, refresh, fault);
      }
    case Logout(access, refresh, who) => KeepHolds(s.sessions, who, Some(access));
    case LogoutAll(who) => KeepHolds(s.sessions, who, None);
    case _ =>
  }

  lemma OpenSessionKeepsTokensUnique(s: State, user: UserId, access: Token, refresh: Token, fault: Fault)
    requires TokensAreUnique(s) && Fresh(s, access, refresh)
    ensures TokensAreUnique(OpenSession(s, user, access, refresh, fault))
  {
    var s', row := OpenSession(s, user, access, refresh, fault), Session(user, access, refresh);
    assert forall r :: r in s'.sessions <==> r in s.sessions || (SavesRow(fault) && r == row);
    forall r, q, t | r in s'.sessions && q in s'.sessions && Holds(r, t) && Holds(q, t)
      ensures r == q
    {
      if r in s.sessions && q in s.sessions {
        assert r == q;
      }
    }
  }

  lemma {:induction false} RunKeepsTokensUnique(ops: seq<Op>)
    ensures TokensAreUnique(Run(EMPTY, ops))
  {
    if ops == [] {
    } else {
      RunKeepsTokensUnique(ops[..|ops| - 1]);
      StepKeepsTokensUnique(Run(EMPTY, ops[..|ops| - 1]), ops[|ops| - 1]);
    }
  }

  lemma DeadStep(s: State, op: Op, t: Token)
    requires t in s.issuedTo && t !in s.live
    ensures t in Step(s, op).issuedTo && t !in Step(s, op).live
  {
  }

  /** An issued token that is not live never becomes live again. */
  lemma {:induction false} DeadStaysDead(s: State, ops: seq<Op>, t: Token)
    requires t in s.issuedTo && t !in s.live
    ensures t in Run(s, ops).issuedTo && t !in Run(s, ops).live
  {
    if ops == [] {
    } else {
      DeadStaysDead(s, ops[..|ops| - 1], t);
      DeadStep(Run(s, ops[..|ops| - 1]), ops[|ops| - 1], t);
    }
  }

  // ----- What each request does to the tokens -----

  /** A logout ends the two mappings it is given and no other, and the user's rows with that
      access token and no others. */
  lemma LogoutEnds(s: State, access: Token, refresh: Token, who: UserId, t: Token, r: Session)
    ensures
      var s' := Step(s, Logout(access, refresh, who));
      && (t in s'.live <==> t in s.live && t != access && t != refresh)
      && (t in s'.live ==> s'.live[t] == s.live[t])
      && (r in s'.sessions <==> r in s.sessions && !(r.user == who && r.access == access))
      && s'.accounts == s.accounts
  {
    KeepHolds(s.sessions, who, Some(access));
  }

  /** After a logout with the tokens of a session they never resolve again. */
  lemma LogoutIsFinal(s: State, r: Session, more: seq<Op>)
    requires TokensAreUnique(s) && r in s.sessions
    ensures
      var s' := Run(Step(s, Logout(r.access, r.refresh, r.user)), more);
      r.access !in s'.live && r.refresh !in s'.live
  {
    var s' := Step(s, Logout(r.access, r.refresh, r.user));
    LogoutEnds(s, r.access, r.refresh, r.user, r.access, r);
    LogoutEnds(s, r.access, r.refresh, r.user, r.refresh, r);
    DeadStaysDead(s', more, r.access);
    DeadStaysDead(s', more, r.refresh);
  }

  /** logoutAll ends exactly the mappings that the user's rows name, and exactly those rows;
      other users keep theirs. */
  lemma LogoutAllEnds(s: State, who: UserId, t: Token, r: Session)
    requires TokensAreUnique(s)
    ensures
      var s' := Step(s, LogoutAll(who));
      && (t in s'.live <==> t in s.live && !exists q :: q in s.sessions && q.user == who && Holds(q, t))
      && (t in s'.live ==> s'.live[t] == s.live[t])
      && (t in s.live && s.live[t] != who ==> t in s'.live)
      && (r in s'.sessions <==> r in s.sessions && r.user != who)
      && s'.accounts == s.accounts
  {
    KeepHolds(s.sessions, who, None);
    if t in TokensOf(s.sessions, who) {
      var q :| q in s.sessions && q.user == who && t in Pair(q);
      assert Holds(q, t);
    }
    if q :| q in s.sessions && q.user == who && Holds(q, t) {
      assert t in Pair(q);
    }
  }

  /** A login opens one session: its two tokens resolve to the user, and its row is there;
      nobody's tokens or rows change otherwise. */
  lemma LoginOpens(s: State, user: UserId, access: Token, refresh: Token, t: Token, r: Session)
    requires Fresh(s, access, refresh)
    ensures
      var s' := Step(s, VerifyOtp(user, access, refresh, NoFault));
      && access in s'.live && s'.live[access] == user && refresh in s'.live && s'.live[refresh] == user
      && (t != access && t != refresh ==> (t in s'.live <==> t in s.live) && (t in s.live ==> s'.live[t] == s.live[t]))
      && (r in s'.sessions <==> r in s.sessions || r == Session(user, access, refresh))
      && s'.accounts == s.accounts
  {
  }

  /** A refresh always ends the token it is given. It opens a session for the token's user if
      and only if the JWT verifies and the account is there, active and not locked. */
  lemma RefreshOpensIff(s: State, token: Token, verifies: bool, access: Token, refresh: Token, t: Token, r: Session)
    requires Fresh(s, access, refresh) && TokensAreUnique(s) && token in s.live
    ensures
      var s', user := Step(s, RefreshTokens(token, verifies, access, refresh, NoFault)), s.live[token];
      var opens := verifies && user in s.accounts && s.accounts[user].active && !s.accounts[user].locked;
      && token !in s'.live
      && (opens ==> access in s'.live && s'.live[access] == user && refresh in s'.live && s'.live[refresh] == user)
      && (!opens ==> access !in s'.live && refresh !in s'.live)
      && (t != access && t != refresh && t != token ==>
            (t in s'.live <==> t in s.live) && (t in s.live ==> s'.live[t] == s.live[t]))
      && (r in s'.sessions <==> r in s.sessions || (opens && r == Session(user, access, refresh)))
      && s'.accounts == s.accounts
  {
  }

  // ----- What logoutAll reaches -----

  ghost predicate Orphaned(s: State, t: Token) {
    t in s.live && !HasRow(s, t)
  }

  /** The step drops the session of a live refresh token other than the one it was given. */
  ghost predicate Drops(s: State, op: Op, t: Token) {
    && op.Logout? && t in s.live && t != op.oldRefresh
    && exists r :: r in s.sessions && r.user == op.who && r.access == op.oldAccess && r.refresh == t
  }

  /** The token's mapping was stored, and the session row was not. */
  predicate LeftBy(fault: Fault, access: Token, refresh: Token, t: Token) {
    || (t == access && (fault == AtRefreshMapping || fault == AtSessionRow))
    || (t == refresh && fault == AtSessionRow)
  }

  /** The step stores the token and throws before it saves the session. */
  predicate Strands(s: State, op: Op, t: Token) {
    Opens(s, op) && LeftBy(op.fault, op.access, op.refresh, t)
  }

  ghost predicate Orphans(s: State, op: Op, t: Token) {
    Drops(s, op, t) || Strands(s, op, t)
  }

  /** logoutAll leaves a token of the user alive if and only if the token has no row. */
  lemma LogoutAllLeavesIff(s: State, user: UserId, t: Token)
    requires TokensAreUnique(s) && t in s.issuedTo && s.issuedTo[t] == user
    ensures t in Step(s, LogoutAll(user)).live <==> Orphaned(s, t)
  {
    if t in s.live && HasRow(s, t) {
      var r :| r in s.sessions && Holds(r, t);
      assert t in Pair(r) && r.user == user;
    }
    if t in TokensOf(s.sessions, user) {
      var r :| r in s.sessions && r.user == user && t in Pair(r);
      assert Holds(r, t);
    }
  }

  lemma OrphanedAfterOpening(s: State, user: UserId, access: Token, refresh: Token, fault: Fault, t: Token)
    requires TokensAreUnique(s) && Fresh(s, access, refresh)
    ensures
      var s' := OpenSession(s, user, access, refresh, fault);
      Orphaned(s', t) <==> t in s'.live && (Orphaned(s, t) || LeftBy(fault, access, refresh, t))
  {
    var s', row := OpenSession(s, user, access, refresh, fault), Session(user, access, refresh);
    assert forall r :: r in s'.sessions <==> r in s.sessions || (SavesRow(fault) && r == row);
    assert HasRow(s', t) <==> HasRow(s, t) || (SavesRow(fault) && Holds(row, t));
  }

  lemma OrphanedAfterLogout(s: State, op: Op, t: Token)
    requires TokensAreUnique(s) && op.Logout?
    ensures Orphaned(Step(s, op), t) <==> t in Step(s, op).live && (Orphaned(s, t) || Drops(s, op, t))
  {
    KeepHolds(s.sessions, op.who, Some(op.oldAccess));
    if HasRow(s, t) {
      var r :| r in s.sessions && Holds(r, t);
      assert HasRow(Step(s, op), t) ==> r in Step(s, op).sessions;
    }
  }

  lemma OrphanedAfterLogoutAll(s: State, who: UserId, t: Token)
    requires TokensAreUnique(s)
    ensures Orphaned(Step(s, LogoutAll(who)), t) <==> t in Step(s, LogoutAll(who)).live && Orphaned(s, t)
  {
    KeepHolds(s.sessions, who, None);
    if HasRow(s, t) {
      var r :| r in s.sessions && Holds(r, t);
      assert t in Pair(r);
      assert r.user != who ==> r in Step(s, LogoutAll(who)).sessions;
    }
  }

  lemma OrphanedAfterRefresh(s: State, op: Op, t: Token)
    requires TokensAreUnique(s) && op.RefreshTokens?
    ensures Orphaned(Step(s, op), t) <==> t in Step(s, op).live && (Orphaned(s, t) || Strands(s, op, t))
  {
    var s' := s.(live := s.live - {op.token});
    assert HasRow(s', t) <==> HasRow(s, t);
    if Opens(s, op) {
      OrphanedAfterOpening(s', s.live[op.token], op.access, op.refresh, op.fault, t);
    }
  }

  /** A live token is without a row if and only if it was before, or the step orphans it. */
  lemma OrphanedAfterIff(s: State, op: Op, t: Token)
    requires TokensAreUnique(s)
    ensures Orphaned(Step(s, op), t) <==> t in Step(s, op).live && (Orphaned(s, t) || Orphans(s, op, t))
  {
    match op
    case VerifyOtp(user, access, refresh, fault) =>
      if Opens(s, op) {
        OrphanedAfterOpening(s, user, access, refresh, fault, t);
      }
    case RefreshTokens(_, _, _, _, _) => OrphanedAfterRefresh(s, op, t);
    case Logout(_, _, _) => OrphanedAfterLogout(s, op, t);
    case LogoutAll(who) => OrphanedAfterLogoutAll(s, who, t);
    case Expire(_) => assert HasRow(Step(s, op), t) <==> HasRow(s, t);
    case SetAccount(_, _) => assert HasRow(Step(s, op), t) <==> HasRow(s, t);
  }

  // ----- Whole steps -----

  /** The row that logout drops takes no live token with it: its refresh token is the one
      given, or is dead already. */
  ghost predicate ClosesWholeSession(s: State, op: Op) {
    op.Logout? ==> forall r :: r in s.sessions && r.user == op.who && r.access == op.oldAccess ==>
      r.refresh == op.oldRefresh || r.refresh !in s.live
  }

  /** A new pair comes with its session row, or fails before its first mapping. */
  predicate OpensWholeSession(s: State, op: Op) {
    Opens(s, op) ==> SavesRow(op.fault) || op.fault == AtAccessMapping
  }

  ghost predicate WholeStep(s: State, op: Op) {
    ClosesWholeSession(s, op) && OpensWholeSession(s, op)
  }

  lemma OrphansNotWhole(s: State, op: Op, t: Token)
    requires TokensAreUnique(s) && Orphans(s, op, t)
    ensures !WholeStep(s, op) && t in Step(s, op).live
  {
  }

  /** A step that is not whole orphans a token. */
  lemma OrphanOf(s: State, op: Op) returns (t: Token)
    requires !WholeStep(s, op)
    ensures Orphans(s, op, t)
  {
    if ClosesWholeSession(s, op) {
      t := op.access;
    } else {
      var r :| r in s.sessions && r.user == op.who && r.access == op.oldAccess
        && r.refresh != op.oldRefresh && r.refresh in s.live;
      t := r.refresh;
      assert Drops(s, op, t);
    }
  }

  /** Exactly when an operation leaves every live token with a row: unless it is a logout
      that does not close a whole session, or throws between a mapping and the row. */
  lemma StepKeepsRowsIff(s: State, op: Op)
    requires TokensAreUnique(s) && LiveTokensHaveRows(s)
    ensures LiveTokensHaveRows(Step(s, op)) <==> WholeStep(s, op)
  {
    if WholeStep(s, op) {
      forall t | t in Step(s, op).live
        ensures HasRow(Step(s, op), t)
      {
        OrphanedAfterIff(s, op, t);
        if Orphans(s, op, t) {
          OrphansNotWhole(s, op, t);
        }
      }
    } else {
      var t := OrphanOf(s, op);
      OrphansNotWhole(s, op, t);
      OrphanedAfterIff(s, op, t);
    }
  }

  /** Logging out with the pair of one session is always within the condition. */
  lemma PairLogoutIsWhole(s: State, r: Session)
    requires TokensAreUnique(s) && r in s.sessions
    ensures WholeStep(s, Logout(r.access, r.refresh, r.user))
  {
    forall q | q in s.sessions && q.user == r.user && q.access == r.access
      ensures q == r
    {
      assert Holds(q, r.access) && Holds(r, r.access);
    }
  }

  ghost predicate AllWhole(ops: seq<Op>) {
    forall n :: 0 <= n < |ops| ==> WholeStep(Run(EMPTY, ops[..n]), ops[n])
  }

  /** In a run of whole steps every live token has its session row. */
  lemma {:induction false} RunKeepsRows(ops: seq<Op>)
    requires AllWhole(ops)
    ensures LiveTokensHaveRows(Run(EMPTY, ops))
  {
    if ops == [] {
    } else {
      var front := ops[..|ops| - 1];
      forall n | 0 <= n < |front|
        ensures WholeStep(Run(EMPTY, front[..n]), front[n])
      {
        assert front[..n] == ops[..n];
      }
      RunKeepsRows(front);
      RunKeepsTokensUnique(front);
      StepKeepsRowsIff(Run(EMPTY, front), ops[|ops| - 1]);
    }
  }

  // ----- Which tokens were orphaned -----

  /** Some step of the run orphaned the token. */
  ghost predicate WasOrphaned(ops: seq<Op>, t: Token) {
    exists n :: 0 <= n < |ops| && Orphans(Run(EMPTY, ops[..n]), ops[n], t)
  }

  lemma WasOrphanedOneMore(ops: seq<Op>, t: Token)
    requires ops != []
    ensures
      var front := ops[..|ops| - 1];
      WasOrphaned(ops, t) <==> WasOrphaned(front, t) || Orphans(Run(EMPTY, front), ops[|ops| - 1], t)
  {
    var front := ops[..|ops| - 1];
    forall n | 0 <= n < |front|
      ensures front[..n] == ops[..n]
    {
    }
    if WasOrphaned(front, t) {
      var n :| 0 <= n < |front| && Orphans(Run(EMPTY, front[..n]), front[n], t);
      assert Orphans(Run(EMPTY, ops[..n]), ops[n], t);
    }
    if WasOrphaned(ops, t) {
      var n :| 0 <= n < |ops| && Orphans(Run(EMPTY, ops[..n]), ops[n], t);
      if n < |front| {
        assert Orphans(Run(EMPTY, front[..n]), front[n], t);
      }
    }
  }

  lemma {:induction false} OrphanedWasIssued(ops: seq<Op>, t: Token)
    requires WasOrphaned(ops, t)
    ensures t in Run(EMPTY, ops).issuedTo
  {
    if ops == [] {
    } else {
      var front, op := ops[..|ops| - 1], ops[|ops| - 1];
      WasOrphanedOneMore(ops, t);
      if WasOrphaned(front, t) {
        OrphanedWasIssued(front, t);
        IssuedStays(Run(EMPTY, front), op, t);
      } else {
        RunKeepsTokensUnique(front);
        OrphanedByItsUser(Run(EMPTY, front), op, t);
      }
    }
  }

  lemma IssuedStays(s: State, op: Op, t: Token)
    requires t in s.issuedTo
    ensures t in Step(s, op).issuedTo
  {
  }

  /** Over runs: a live token is without a row if and only if some logout dropped its row
      and not the token, or its session failed to be saved. */
  lemma {:induction false} OrphanedIff(ops: seq<Op>, t: Token)
    ensures Orphaned(Run(EMPTY, ops), t) <==> t in Run(EMPTY, ops).live && WasOrphaned(ops, t)
  {
    if ops == [] {
    } else {
      var front, op := ops[..|ops| - 1], ops[|ops| - 1];
      OrphanedIff(front, t);
      RunKeepsTokensUnique(front);
      OrphanedAfterIff(Run(EMPTY, front), op, t);
      WasOrphanedOneMore(ops, t);
      if WasOrphaned(front, t) && t !in Run(EMPTY, front).live {
        OrphanedWasIssued(front, t);
        DeadStep(Run(EMPTY, front), op, t);
      }
    }
  }

  /** Exactly which tokens of a user survive logoutAll: the live ones that an earlier
      request, of the same user, orphaned. */
  lemma LogoutAllSparesIff(ops: seq<Op>, user: UserId, t: Token)
    requires t in Run(EMPTY, ops).issuedTo && Run(EMPTY, ops).issuedTo[t] == user
    ensures t in Step(Run(EMPTY, ops), LogoutAll(user)).live <==> t in Run(EMPTY, ops).live && WasOrphaned(ops, t)
  {
    RunKeepsTokensUnique(ops);
    LogoutAllLeavesIff(Run(EMPTY, ops), user, t);
    OrphanedIff(ops, t);
  }

  /** The user that the request is of. */
  predicate ActsFor(s: State, op: Op, user: UserId) {
    match op
    case VerifyOtp(u, _, _, _) => u == user
    case RefreshTokens(token, _, _, _, _) => token in s.live && s.live[token] == user
    case Logout(_, _, who) => who == user
    case LogoutAll(who) => who == user
    case Expire(_) => false
    case SetAccount(u, _) => u == user
  }

  /** Whoever's requests there were: only one of the token's own user orphans it. */
  lemma OrphanedByItsUser(s: State, op: Op, t: Token)
    requires TokensAreUnique(s) && Orphans(s, op, t)
    ensures t in Step(s, op).issuedTo && ActsFor(s, op, Step(s, op).issuedTo[t])
    ensures !WholeStep(s, op)
  {
  }

  /** After logoutAll no token issued to the user before resolves, then or ever, unless it
      had been orphaned. */
  lemma LogoutAllIsFinal(ops: seq<Op>, user: UserId, more: seq<Op>, t: Token)
    requires t in Run(EMPTY, ops).issuedTo && Run(EMPTY, ops).issuedTo[t] == user
    requires !WasOrphaned(ops, t)
    ensures t !in Run(Step(Run(EMPTY, ops), LogoutAll(user)), more).live
  {
    LogoutAllSparesIff(ops, user, t);
    DeadStaysDead(Step(Run(EMPTY, ops), LogoutAll(user)), more, t);
  }

  lemma OrphanSurvives(s: State, op: Op, user: UserId, t: Token)
    requires TokensAreUnique(s) && Orphans(s, op, t) && ActsFor(s, op, user)
    ensures t in Step(s, op).issuedTo && Step(s, op).issuedTo[t] == user
    ensures t in Step(Step(s, op), LogoutAll(user)).live
  {
    OrphanedByItsUser(s, op, t);
    OrphansNotWhole(s, op, t);
    OrphanedAfterIff(s, op, t);
    StepKeepsTokensUnique(s, op);
    LogoutAllLeavesIff(Step(s, op), user, t);
  }

  /** Any logout that is not whole leaves a token that logoutAll does not reach. */
  lemma PartialLogoutSurvives(s: State, op: Op) returns (t: Token)
    requires TokensAreUnique(s) && !ClosesWholeSession(s, op)
    ensures t in s.issuedTo && s.issuedTo[t] == op.who
    ensures t in Step(Step(s, op), LogoutAll(op.who)).live
  {
    t := OrphanOf(s, op);
    OrphanSurvives(s, op, op.who, t);
  }

  /** So does any login or refresh that throws between its first mapping and its row. */
  lemma UnsavedSessionSurvives(s: State, op: Op, user: UserId)
    requires TokensAreUnique(s) && Opens(s, op) && ActsFor(s, op, user)
    requires op.fault == AtRefreshMapping || op.fault == AtSessionRow
    ensures op.access in Step(Step(s, op), LogoutAll(user)).live
    ensures op.fault == AtSessionRow ==> op.refresh in Step(Step(s, op), LogoutAll(user)).live
  {
    OrphanSurvives(s, op, user, op.access);
    if op.fault == AtSessionRow {
      OrphanSurvives(s, op, user, op.refresh);
    }
  }

  predicate Distinct(a1: Token, r1: Token, a2: Token, r2: Token) {
    a1 != r1 && a2 != r2 && a1 != a2 && r1 != r2 && a1 != r2 && r1 != a2
  }

  /** Two logins of one user, then a logout that mixes their tokens. */
  function MixedLogoutRun(u: UserId, a1: Token, r1: Token, a2: Token, r2: Token): seq<Op> {
    [VerifyOtp(u, a1, r1, NoFault), VerifyOtp(u, a2, r2, NoFault), Logout(a1, r2, u)]
  }

  function TwoLogins(u: UserId, a1: Token, r1: Token, a2: Token, r2: Token): State {
    OpenSession(OpenSession(EMPTY, u, a1, r1, NoFault), u, a2, r2, NoFault)
  }

  lemma TwoLoginsReached(u: UserId, a1: Token, r1: Token, a2: Token, r2: Token)
    requires Distinct(a1, r1, a2, r2)
    ensures Run(EMPTY, MixedLogoutRun(u, a1, r1, a2, r2)[..2]) == TwoLogins(u, a1, r1, a2, r2)
    ensures Run(EMPTY, MixedLogoutRun(u, a1, r1, a2, r2)) == Step(TwoLogins(u, a1, r1, a2, r2), Logout(a1, r2, u))
  {
    var ops, s1 := MixedLogoutRun(u, a1, r1, a2, r2), OpenSession(EMPTY, u, a1, r1, NoFault);
    assert Step(EMPTY, ops[0]) == s1;
    assert Step(s1, ops[1]) == TwoLogins(u, a1, r1, a2, r2);
    assert ops[..0] == [] && ops[..1][..0] == [] && ops[..2][..1] == ops[..1];
    assert Run(EMPTY, ops[..1]) == s1;
  }

  /** Such a logout exists: whatever the tokens, one that mixes two sessions. */
  lemma MixedLogoutSurvivesLogoutAll(u: UserId, a1: Token, r1: Token, a2: Token, r2: Token)
    requires Distinct(a1, r1, a2, r2)
    ensures r1 in Step(Run(EMPTY, MixedLogoutRun(u, a1, r1, a2, r2)), LogoutAll(u)).live
    ensures !ClosesWholeSession(Run(EMPTY, MixedLogoutRun(u, a1, r1, a2, r2)[..2]), Logout(a1, r2, u))
  {
    var ops, s := MixedLogoutRun(u, a1, r1, a2, r2), TwoLogins(u, a1, r1, a2, r2);
    TwoLoginsReached(u, a1, r1, a2, r2);
    RunKeepsTokensUnique(ops[..2]);
    assert s.sessions == [Session(u, a1, r1), Session(u, a2, r2)];
    assert Session(u, a1, r1) in s.sessions;
    assert Drops(s, Logout(a1, r2, u), r1);
    OrphanSurvives(s, Logout(a1, r2, u), u, r1);
  }

  lemma TokensOfOneMore(sessions: seq<Session>, r: Session, user: UserId)
    ensures TokensOf(sessions + [r], user) == TokensOf(sessions, user) + if r.user == user then Pair(r) else {}
  {
    assert forall q :: q in sessions + [r] <==> q in sessions || q == r;
    forall t | t in TokensOf(sessions + [r], user)
      ensures t in TokensOf(sessions, user) + if r.user == user then Pair(r) else {}
    {
      var q :| q in sessions + [r] && q.user == user && t in Pair(q);
    }
    forall t | t in Pair(r) && r.user == user
      ensures t in TokensOf(sessions + [r], user)
    {
      assert r in sessions + [r];
    }
  }

  // ----- The service -----

  datatype Reply = Unauthorized | TokenPair(access: Token, refresh: Token) | Thrown

  class Service {
    var live: map<Token, UserId>
    var sessions: seq<Session>
    var accounts: map<UserId, Account>
    ghost var issuedTo: map<Token, UserId>

    ghost function Contents(): State
      reads this
    {
      State(live, sessions, accounts, issuedTo)
    }

    ghost predicate Valid()
      reads this
    {
      TokensAreUnique(Contents())
    }

    constructor ()
      ensures Valid() && Contents() == EMPTY
    {
      live, sessions, accounts, issuedTo := map[], [], map[], map[];
    }

    /** storeTokenMapping twice, createAuthSession, logAuthAction. */
    method StoreSession(user: UserId, access: Token, refresh: Token, fault: Fault) returns (reply: Reply)
      modifies this
      ensures Contents() == OpenSession(old(Contents()), user, access, refresh, fault)
      ensures reply == if fault == NoFault then TokenPair(access, refresh) else Thrown
    {
      issuedTo := issuedTo[access := user][refresh := user];
      if fault == AtAccessMapping {
        return Thrown;
      }
      live := live[access := user];
      if fault == AtRefreshMapping {
        return Thrown;
      }
      live := live[refresh := user];
      if fault == AtSessionRow {
        return Thrown;
      }
      sessions := sessions + [Session(user, access, refresh)];
      return if fault == AtAuditLog then Thrown else TokenPair(access, refresh);
    }

    method VerifyOtp(user: UserId, access: Token, refresh: Token, fault: Fault) returns (reply: Reply)
      requires Valid() && Fresh(Contents(), access, refresh)
      modifies this
      ensures Valid() && Contents() == Step(old(Contents()), Op.VerifyOtp(user, access, refresh, fault))
      ensures reply == if fault == NoFault then TokenPair(access, refresh) else Thrown
      ensures reply.TokenPair? ==> live[access] == user && live[refresh] == user
    {
      StepKeepsTokensUnique(Contents(), Op.VerifyOtp(user, access, refresh, fault));
      reply := StoreSession(user, access, refresh, fault);
    }

    method RefreshTokens(token: Token, verifies: bool, access: Token, refresh: Token, fault: Fault)
      returns (reply: Reply)
      requires Valid() && Fresh(Contents(), access, refresh)
      modifies this
      ensures Valid() && Contents() == Step(old(Contents()), Op.RefreshTokens(token, verifies, access, refresh, fault))
      ensures reply == if !old(token in live && verifies && MayRefresh(Contents(), live[token])) then Unauthorized
                       else if fault == NoFault then TokenPair(access, refresh) else Thrown
      ensures token !in live
      ensures old(token !in live) ==> Contents() == old(Contents())
    {
      StepKeepsTokensUnique(Contents(), Op.RefreshTokens(token, verifies, access, refresh, fault));
      if token !in live {
        return Unauthorized;
      }
      var user := live[token];
      live := live - {token};
      if !verifies || user !in accounts || !accounts[user].active || accounts[user].locked {
        return Unauthorized;
      }
      reply := StoreSession(user, access, refresh, fault);
    }

    method Logout(access: Token, refresh: Token, who: UserId)
      requires Valid()
      modifies this
      ensures Valid() && Contents() == Step(old(Contents()), Op.Logout(access, refresh, who))
      ensures forall t :: t in live <==> t in old(live) && t != access && t != refresh
      ensures forall r :: r in sessions <==> r in old(sessions) && !(r.user == who && r.access == access)
    {
      StepKeepsTokensUnique(Contents(), Op.Logout(access, refresh, who));
      live := live - {access};
      live := live - {refresh};
      DeleteSessions(who, Some(access));
      KeepHolds(old(sessions), who, Some(access));
    }

    method LogoutAll(who: UserId)
      requires Valid()
      modifies this
      ensures Valid() && Contents() == Step(old(Contents()), Op.LogoutAll(who))
      ensures forall t :: t in old(issuedTo) && old(issuedTo)[t] == who && t in live ==> old(Orphaned(Contents(), t))
    {
      ghost var before := Contents();
      StepKeepsTokensUnique(before, Op.LogoutAll(who));
      forall t | t in issuedTo && issuedTo[t] == who
        ensures t in Step(before, Op.LogoutAll(who)).live <==> Orphaned(before, t)
      {
        LogoutAllLeavesIff(before, who, t);
      }
      DropMappings(who);
      DeleteSessions(who, None);
      assert Contents() == Step(before, Op.LogoutAll(who));
    }

    /** The loop over the user's session rows. */
    method DropMappings(who: UserId)
      modifies this`live
      ensures live == old(live) - TokensOf(sessions, who)
    {
      for i := 0 to |sessions|
        invariant live == old(live) - TokensOf(sessions[..i], who)
      {
        assert sessions[..i + 1] == sessions[..i] + [sessions[i]];
        TokensOfOneMore(sessions[..i], sessions[i], who);
        if sessions[i].user == who {
          live := live - {sessions[i].access};
          live := live - {sessions[i].refresh};
        }
      }
      assert sessions[..|sessions|] == sessions;
    }

    /** `sessionRepository.delete` by user and, for logout, access token. */
    method DeleteSessions(who: UserId, access: Option<Token>)
      modifies this`sessions
      ensures sessions == Keep(old(sessions), who, access)
    {
      var kept := [];
      for i := 0 to |sessions|
        invariant sessions == old(sessions)
        invariant kept == Keep(sessions[..i], who, access)
      {
        assert sessions[..i + 1][..i] == sessions[..i];
        if !(sessions[i].user == who && (access.None? || sessions[i].access == access.value)) {
          kept := kept + [sessions[i]];
        }
      }
      assert sessions[..|sessions|] == sessions;
      sessions := kept;
    }
  }
}
