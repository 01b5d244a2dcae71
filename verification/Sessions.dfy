/**
 Sign-in against password reset and change, one SQL statement at a time. Transactions interleave freely
 and meet only at row locks; what they write is seen by others when they commit. A password hash is a
 version number: every new hash is greater.
 */
module Sessions {
  import opened Outcomes

  type UserId = nat
  type SessionId = nat
  type TokenId = nat
  type TxId = nat
  type Hash = nat

  datatype Session = Session(user: UserId, under: Hash, revoked: bool)

  datatype Token = Token(user: UserId, used: bool)

  /** Row lock modes and what excludes what; inserting a row takes KeyShare on the user it refers to. */
  datatype LockMode = KeyShare | Share | NoKeyUpdate | Update

  predicate Conflict(a: LockMode, b: LockMode) {
    match a
    case KeyShare => b.Update?
    case Share => b.NoKeyUpdate? || b.Update?
    case NoKeyUpdate => !b.KeyShare?
    case Update => true
  }

  /** Where a transaction stands, and what it has written but not committed. */
  datatype Tx =
    | CreateLocked(user: UserId, under: Hash)
    | CreateInserted(user: UserId, under: Hash, session: SessionId)
    | ResetToken(token: TokenId, user: UserId)
    | ResetWritten(token: TokenId, user: UserId, hash: Hash)
    | ResetRevoking(token: TokenId, user: UserId, hash: Hash, revoked: set<SessionId>)
    | ChangeLocked(user: UserId, session: SessionId)
    | ChangeWritten(user: UserId, session: SessionId, hash: Hash)
    | ChangeRevoking(user: UserId, session: SessionId, hash: Hash, revoked: set<SessionId>)
    | ChangeMarking(user: UserId, session: SessionId, hash: Hash, revoked: set<SessionId>, pending: set<TokenId>, marked: set<TokenId>)
    | RequestMarking(user: UserId, pending: set<TokenId>, marked: set<TokenId>)
    | RequestInserted(user: UserId, marked: set<TokenId>, token: TokenId)
  {
    /** The lock held on the row of the user. */
    function Mode(): (mode: set<LockMode>) {
      match this
      case CreateLocked(_, _) | CreateInserted(_, _, _) => {Share}
      case ResetToken(_, _) | RequestMarking(_, _, _) => {}
      case ResetWritten(_, _, _) | ResetRevoking(_, _, _, _) => {NoKeyUpdate}
      case ChangeLocked(_, _) | ChangeWritten(_, _, _) | ChangeRevoking(_, _, _, _) | ChangeMarking(_, _, _, _, _, _) => {Update}
      case RequestInserted(_, _, _) => {KeyShare}
    }

    /** The token rows locked. */
    function Rows(): set<TokenId> {
      match this
      case ResetToken(_, _) | ResetWritten(_, _, _) | ResetRevoking(_, _, _, _) => {token}
      case ChangeMarking(_, _, _, _, _, _) | RequestMarking(_, _, _) | RequestInserted(_, _, _) => marked
      case _ => {}
    }
  }

  /**
   Committed rows and open transactions. `latest` remembers, for each user, the session that made the
   latest password change, if a session made it; `redeemed` lists the tokens of committed resets.
   */
  datatype State = State(users: map<UserId, Hash>, sessions: map<SessionId, Session>, tokens: map<TokenId, Token>,
                         txs: map<TxId, Tx>, nextHash: Hash, latest: map<UserId, SessionId>, redeemed: seq<TokenId>)

  datatype Action =
    // createSession
    | ShareUser(tx: TxId, user: UserId, expected: Option<Hash>)
    | InsertSession(tx: TxId, session: SessionId)
    // resetPassword
    | LockToken(tx: TxId, token: TokenId)
    | WriteReset(tx: TxId)
    | RevokeForReset(tx: TxId)
    // changePassword
    | LockUser(tx: TxId, user: UserId, session: SessionId)
    | WriteChange(tx: TxId)
    | RevokeForChange(tx: TxId)
    | SnapTokens(tx: TxId)
    // requestPasswordReset
    | SnapForRequest(tx: TxId, user: UserId)
    | InsertToken(tx: TxId, token: TokenId)
    // either of the last two, for each unused token in turn
    | MarkToken(tx: TxId, token: TokenId)
    // any transaction
    | Commit(tx: TxId)
    | Rollback(tx: TxId)
    // revokeSession and revokeUserSessions
    | Logout(session: SessionId)
    | LogoutUser(user: UserId, except: Option<SessionId>)

  // ----- locks and snapshots

  predicate Compatible(held: set<LockMode>, mode: LockMode) {
    forall m | m in held :: !Conflict(m, mode)
  }

  predicate UserFree(s: State, user: UserId, mode: LockMode) {
    forall t | t in s.txs && s.txs[t].user == user :: Compatible(s.txs[t].Mode(), mode)
  }

  predicate TokenFree(s: State, token: TokenId) {
    forall t | t in s.txs :: token !in s.txs[t].Rows()
  }

  function LiveSessions(s: State, user: UserId): set<SessionId> {
    set id | id in s.sessions && s.sessions[id].user == user && !s.sessions[id].revoked
  }

  function LiveTokens(s: State, user: UserId): set<TokenId> {
    set k | k in s.tokens && s.tokens[k].user == user && !s.tokens[k].used
  }

  function Revoked(sessions: map<SessionId, Session>, ids: set<SessionId>): map<SessionId, Session> {
    map id | id in sessions :: if id in ids then sessions[id].(revoked := true) else sessions[id]
  }

  function Used(tokens: map<TokenId, Token>, ids: set<TokenId>): map<TokenId, Token> {
    map k | k in tokens :: if k in ids then tokens[k].(used := true) else tokens[k]
  }

  // ----- statements

  /** What transaction `t` becomes by its next statement, if that statement applies and is not blocked. */
  function Advance(s: State, t: TxId, a: Action): (next: Option<Tx>)
    requires t in s.txs
  {
    var x := s.txs[t];
    match a
    case InsertSession(_, session) =>
      if x.CreateLocked? && session !in s.sessions then Some(CreateInserted(x.user, x.under, session)) else None
    case WriteReset(_) =>
      if x.ResetToken? && UserFree(s, x.user, NoKeyUpdate) then Some(ResetWritten(x.token, x.user, s.nextHash)) else None
    case RevokeForReset(_) =>
      if x.ResetWritten? then Some(ResetRevoking(x.token, x.user, x.hash, LiveSessions(s, x.user))) else None
    case WriteChange(_) =>
      if x.ChangeLocked? then Some(ChangeWritten(x.user, x.session, s.nextHash)) else None
    case RevokeForChange(_) =>
      if x.ChangeWritten? then Some(ChangeRevoking(x.user, x.session, x.hash, LiveSessions(s, x.user) - {x.session})) else None
    case SnapTokens(_) =>
      if x.ChangeRevoking? then Some(ChangeMarking(x.user, x.session, x.hash, x.revoked, LiveTokens(s, x.user), {})) else None
    case MarkToken(_, k) =>
      // a row that another transaction used up meanwhile is skipped
      if (x.ChangeMarking? || x.RequestMarking?) && k in x.pending && TokenFree(s, k) then
        Some(x.(pending := x.pending - {k}, marked := if k in LiveTokens(s, x.user) then x.marked + {k} else x.marked))
      else None
    case InsertToken(_, k) =>
      if x.RequestMarking? && x.pending == {} && k !in s.tokens && UserFree(s, x.user, KeyShare) then Some(RequestInserted(x.user, x.marked, k))
      else None
    case _ => None
  }

  /** The first statement of a transaction. */
  function Open(s: State, a: Action): (first: Option<Tx>) {
    match a
    case ShareUser(_, user, expected) =>
      if user in s.users && UserFree(s, user, Share) && (expected.Some? ==> expected.value == s.users[user]) then Some(CreateLocked(user, s.users[user]))
      else None
    case LockToken(_, k) =>
      if k in s.tokens && !s.tokens[k].used && TokenFree(s, k) then Some(ResetToken(k, s.tokens[k].user)) else None
    case LockUser(_, user, session) =>
      if user in s.users && UserFree(s, user, Update) then Some(ChangeLocked(user, session)) else None
    case SnapForRequest(_, user) =>
      if user in s.users then Some(RequestMarking(user, LiveTokens(s, user), {})) else None
    case _ => None
  }

  function Committed(s: State, t: TxId): State
    requires t in s.txs
  {
    var x, rest := s.txs[t], s.txs - {t};
    match x
    case CreateInserted(user, under, session) =>
      if session in s.sessions then s.(txs := rest)
      else s.(txs := rest, sessions := s.sessions[session := Session(user, under, false)])
    case ResetRevoking(token, user, hash, revoked) =>
      s.(txs := rest, users := s.users[user := hash], tokens := Used(s.tokens, {token}), sessions := Revoked(s.sessions, revoked),
         latest := s.latest - {user}, redeemed := s.redeemed + [token])
    case ChangeMarking(user, session, hash, revoked, pending, marked) =>
      if pending != {} then s
      else
        s.(txs := rest, users := s.users[user := hash], tokens := Used(s.tokens, marked), sessions := Revoked(s.sessions, revoked),
           latest := s.latest[user := session])
    case RequestInserted(user, marked, token) =>
      if token in s.tokens then s.(txs := rest)
      else s.(txs := rest, tokens := Used(s.tokens, marked)[token := Token(user, false)])
    case _ => s
  }

  /** Writing a new password uses up a hash. */
  function NextHash(s: State, a: Action): Hash {
    if a.WriteReset? || a.WriteChange? then s.nextHash + 1 else s.nextHash
  }

  /** One step of the whole system; a step that does not apply, or is blocked, changes nothing. */
  function Step(s: State, a: Action): State {
    match a
    case Logout(session) => s.(sessions := Revoked(s.sessions, {session}))
    case LogoutUser(user, except) => s.(sessions := Revoked(s.sessions, if except.Some? then LiveSessions(s, user) - {except.value} else LiveSessions(s, user)))
    case Commit(t) => if t in s.txs then Committed(s, t) else s
    case Rollback(t) => s.(txs := s.txs - {t})
    case _ =>
      var next := if a.tx in s.txs then Advance(s, a.tx, a) else Open(s, a);
      if next.None? then s
      else
        s.(txs := s.txs[a.tx := next.value], nextHash := NextHash(s, a))
  }

  function Play(s: State, actions: seq<Action>): State {
    if actions == [] then s else Step(Play(s, actions[..|actions| - 1]), actions[|actions| - 1])
  }

  // ----- what always holds

  ghost predicate LocksExclude(s: State) {
    forall t, t' | t in s.txs && t' in s.txs && t != t' :: Apart(s.txs[t], s.txs[t'])
  }

  ghost predicate Apart(x: Tx, y: Tx) {
    && (x.user == y.user ==> forall m, m' | m in x.Mode() && m' in y.Mode() :: !Conflict(m, m'))
    && x.Rows() !! y.Rows()
  }

  ghost predicate Own(s: State, user: UserId, ids: set<TokenId>) {
    forall k | k in ids :: k in s.tokens && s.tokens[k].user == user
  }

  ghost predicate Redeemable(s: State, token: TokenId, user: UserId) {
    token in s.tokens && s.tokens[token] == Token(user, false)
  }

  /** What a transaction may rely on while it holds its locks. */
  ghost predicate Sound(s: State, x: Tx) {
    x.user in s.users &&
    match x
    case CreateLocked(user, under) => under == s.users[user]
    case CreateInserted(user, under, session) => under == s.users[user]
    case ResetToken(token, user) => Redeemable(s, token, user)
    case ResetWritten(token, user, hash) => Redeemable(s, token, user) && s.users[user] < hash < s.nextHash
    case ResetRevoking(token, user, hash, revoked) =>
      Redeemable(s, token, user) && s.users[user] < hash < s.nextHash && LiveSessions(s, user) <= revoked
    case ChangeLocked(user, session) => true
    case ChangeWritten(user, session, hash) => s.users[user] < hash < s.nextHash
    case ChangeRevoking(user, session, hash, revoked) =>
      s.users[user] < hash < s.nextHash && LiveSessions(s, user) <= revoked + {session} && session !in revoked
    case ChangeMarking(user, session, hash, revoked, pending, marked) =>
      && s.users[user] < hash < s.nextHash && LiveSessions(s, user) <= revoked + {session} && session !in revoked
      && LiveTokens(s, user) <= pending + marked && Own(s, user, marked)
    case RequestMarking(user, pending, marked) => Own(s, user, marked)
    case RequestInserted(user, marked, token) => Own(s, user, marked)
  }

  /** A live session was issued under the present password, or made the latest change of it. */
  ghost predicate Current(s: State, id: SessionId) {
    id in s.sessions && !s.sessions[id].revoked ==>
      && s.sessions[id].user in s.users
      && (s.sessions[id].under == s.users[s.sessions[id].user] || (s.sessions[id].user in s.latest && s.latest[s.sessions[id].user] == id))
  }

  ghost predicate Safe(s: State) {
    && (forall id | id in s.sessions :: Current(s, id))
    && (forall u | u in s.users :: s.users[u] < s.nextHash)
    && (forall k | k in s.tokens :: s.tokens[k].user in s.users)
    && (forall i | 0 <= i < |s.redeemed| :: s.redeemed[i] in s.tokens && s.tokens[s.redeemed[i]].used)
    && (forall i, j | 0 <= i < j < |s.redeemed| :: s.redeemed[i] != s.redeemed[j])
  }

  ghost predicate Invariant(s: State) {
    Safe(s) && LocksExclude(s) && forall t | t in s.txs :: Sound(s, s.txs[t])
  }

  // ----- a statement only moves its own transaction

  lemma OpenSound(s: State, a: Action)
    requires Invariant(s) && Open(s, a).Some?
    ensures Sound(s, Open(s, a).value)
  {
  }

  lemma OpenApart(s: State, a: Action, y: Tx)
    requires Open(s, a).Some? && exists t :: t in s.txs && s.txs[t] == y
    ensures Apart(Open(s, a).value, y) && Apart(y, Open(s, a).value)
  {
    var x := Open(s, a).value;
    var t :| t in s.txs && s.txs[t] == y;
    match x
    case CreateLocked(user, _) => if y.user == user { FreeFor(s, t, user, Share); }
    case ChangeLocked(user, _) => if y.user == user { FreeFor(s, t, user, Update); }
    case _ =>
  }

  lemma FreeFor(s: State, t: TxId, user: UserId, mode: LockMode)
    requires UserFree(s, user, mode) && t in s.txs && s.txs[t].user == user
    ensures forall m | m in s.txs[t].Mode() :: !Conflict(m, mode) && !Conflict(mode, m)
  {
    assert Compatible(s.txs[t].Mode(), mode);
  }

  lemma AdvanceSound(s: State, t: TxId, a: Action)
    requires Invariant(s) && t in s.txs && Advance(s, t, a).Some?
    ensures Sound(s.(nextHash := NextHash(s, a)), Advance(s, t, a).value)
  {
    SoundNow(s, t);
    NextSound(s, t, a);
  }

  lemma SoundNow(s: State, t: TxId)
    requires Invariant(s) && t in s.txs
    ensures Sound(s, s.txs[t])
    ensures s.txs[t].user in s.users && s.users[s.txs[t].user] < s.nextHash
  {
  }

  lemma NextSound(s: State, t: TxId, a: Action)
    requires t in s.txs && Sound(s, s.txs[t]) && s.users[s.txs[t].user] < s.nextHash && Advance(s, t, a).Some?
    ensures Sound(s.(nextHash := NextHash(s, a)), Advance(s, t, a).value)
  {
    var s', x := s.(nextHash := NextHash(s, a)), s.txs[t];
    assert LiveSessions(s', x.user) == LiveSessions(s, x.user) && LiveTokens(s', x.user) == LiveTokens(s, x.user);
  }

  /** A statement keeps the lock on the user, or takes one that is free. */
  lemma AdvanceModes(s: State, t: TxId, a: Action, t': TxId)
    requires t in s.txs && Advance(s, t, a).Some? && t' in s.txs && Apart(s.txs[t], s.txs[t'])
    ensures var x, y := Advance(s, t, a).value, s.txs[t'];
            && x.user == s.txs[t].user
            && (x.user == y.user ==> forall m, m' | m in x.Mode() && m' in y.Mode() :: !Conflict(m, m') && !Conflict(m', m))
  {
    var x, y := Advance(s, t, a).value, s.txs[t'];
    if x.user == y.user {
      if a.WriteReset? {
        FreeFor(s, t', x.user, NoKeyUpdate);
      } else if a.InsertToken? {
        FreeFor(s, t', x.user, KeyShare);
      } else {
        SameModes(s, t, a);
      }
    }
  }

  lemma SameModes(s: State, t: TxId, a: Action)
    requires t in s.txs && Advance(s, t, a).Some? && !a.WriteReset? && !a.InsertToken?
    ensures Advance(s, t, a).value.Mode() == s.txs[t].Mode()
  {
  }

  /** It keeps its token rows, or takes one that is free. */
  lemma AdvanceRows(s: State, t: TxId, a: Action, t': TxId)
    requires t in s.txs && Advance(s, t, a).Some? && t' in s.txs && s.txs[t].Rows() !! s.txs[t'].Rows()
    ensures Advance(s, t, a).value.Rows() !! s.txs[t'].Rows()
  {
  }

  lemma AdvanceApart(s: State, t: TxId, a: Action, t': TxId)
    requires Invariant(s) && t in s.txs && Advance(s, t, a).Some? && t' in s.txs && t' != t
    ensures Apart(Advance(s, t, a).value, s.txs[t']) && Apart(s.txs[t'], Advance(s, t, a).value)
  {
    assert Apart(s.txs[t], s.txs[t']);
    AdvanceModes(s, t, a, t');
    AdvanceRows(s, t, a, t');
  }

  lemma StillSound(s: State, n: Hash, x: Tx)
    requires Sound(s, x) && s.nextHash <= n
    ensures Sound(s.(nextHash := n), x)
  {
    var s' := s.(nextHash := n);
    assert LiveSessions(s', x.user) == LiveSessions(s, x.user) && LiveTokens(s', x.user) == LiveTokens(s, x.user);
  }

  /** Committed rows stay, transaction `t` becomes `x`. */
  lemma MoveInvariant(s: State, t: TxId, x: Tx, n: Hash)
    requires Invariant(s) && s.nextHash <= n && Sound(s.(nextHash := n), x)
    requires forall t' | t' in s.txs && t' != t :: Apart(x, s.txs[t']) && Apart(s.txs[t'], x)
    ensures Invariant(s.(txs := s.txs[t := x], nextHash := n))
  {
    var s' := s.(txs := s.txs[t := x], nextHash := n);
    forall t' | t' in s'.txs ensures Sound(s', s'.txs[t']) {
      if t' != t { StillSound(s, n, s.txs[t']); }
      SameRows(s.(nextHash := n), s', s'.txs[t']);
    }
    forall id | id in s'.sessions ensures Current(s', id) { assert Current(s, id); }
  }

  lemma SameRows(s: State, s': State, x: Tx)
    requires s'.users == s.users && s'.sessions == s.sessions && s'.tokens == s.tokens && s'.nextHash == s.nextHash
    ensures Sound(s, x) <==> Sound(s', x)
  {
    assert LiveSessions(s', x.user) == LiveSessions(s, x.user) && LiveTokens(s', x.user) == LiveTokens(s, x.user);
  }

  // ----- a commit respects what the others rely on

  lemma Beside(x: Tx, y: Tx)
    requires Apart(x, y) && x.user == y.user
    ensures Share in x.Mode() ==> NoKeyUpdate !in y.Mode() && Update !in y.Mode()
    ensures NoKeyUpdate in x.Mode() ==> Share !in y.Mode() && NoKeyUpdate !in y.Mode() && Update !in y.Mode()
    ensures Update in x.Mode() ==> KeyShare !in y.Mode() && Share !in y.Mode() && NoKeyUpdate !in y.Mode() && Update !in y.Mode()
    ensures KeyShare in x.Mode() ==> Update !in y.Mode()
  {
  }

  lemma CommitCreateKeeps(s: State, t: TxId, t': TxId)
    requires Invariant(s) && t in s.txs && t' in s.txs && t != t' && s.txs[t].CreateInserted?
    ensures Sound(Committed(s, t), s.txs[t'])
  {
    var x, y, s' := s.txs[t], s.txs[t'], Committed(s, t);
    assert Sound(s, x) && Sound(s, y) && Apart(x, y);
    assert LiveTokens(s', y.user) == LiveTokens(s, y.user);
    if y.user != x.user {
      assert LiveSessions(s', y.user) == LiveSessions(s, y.user);
    } else {
      Beside(x, y);
      assert Share in x.Mode();
    }
  }

  lemma CommitResetKeeps(s: State, t: TxId, t': TxId)
    requires Invariant(s) && t in s.txs && t' in s.txs && t != t' && s.txs[t].ResetRevoking?
    ensures Sound(Committed(s, t), s.txs[t'])
  {
    var x, y, s' := s.txs[t], s.txs[t'], Committed(s, t);
    assert Sound(s, x) && Sound(s, y) && Apart(x, y);
    assert x.token in x.Rows() && x.token !in y.Rows();
    if y.user != x.user {
      assert LiveSessions(s', y.user) <= LiveSessions(s, y.user);
      assert LiveTokens(s', y.user) == LiveTokens(s, y.user);
    } else {
      Beside(x, y);
      assert NoKeyUpdate in x.Mode();
    }
  }

  lemma CommitChangeKeeps(s: State, t: TxId, t': TxId)
    requires Invariant(s) && t in s.txs && t' in s.txs && t != t' && s.txs[t].ChangeMarking?
    ensures Sound(Committed(s, t), s.txs[t'])
  {
    var x, y, s' := s.txs[t], s.txs[t'], Committed(s, t);
    assert Sound(s, x) && Sound(s, y) && Apart(x, y);
    assert x.marked !! y.Rows();
    if x.pending == {} {
      if y.user != x.user {
        assert LiveSessions(s', y.user) <= LiveSessions(s, y.user);
        assert LiveTokens(s', y.user) == LiveTokens(s, y.user);
      } else {
        Beside(x, y);
        assert Update in x.Mode();
      }
    }
  }

  lemma CommitRequestKeeps(s: State, t: TxId, t': TxId)
    requires Invariant(s) && t in s.txs && t' in s.txs && t != t' && s.txs[t].RequestInserted?
    ensures Sound(Committed(s, t), s.txs[t'])
  {
    var x, y, s' := s.txs[t], s.txs[t'], Committed(s, t);
    assert Sound(s, x) && Sound(s, y) && Apart(x, y);
    assert x.marked !! y.Rows();
    assert LiveSessions(s', y.user) == LiveSessions(s, y.user);
    if y.user != x.user {
      assert LiveTokens(s', y.user) <= LiveTokens(s, y.user);
    } else {
      Beside(x, y);
      assert KeyShare in x.Mode();
    }
  }

  lemma CreateCurrent(s: State, t: TxId, id: SessionId)
    requires Invariant(s) && t in s.txs && s.txs[t].CreateInserted? && id in Committed(s, t).sessions
    ensures Current(Committed(s, t), id)
  {
    assert Sound(s, s.txs[t]);
    if id in s.sessions { assert Current(s, id); }
  }

  lemma ResetCurrent(s: State, t: TxId, id: SessionId)
    requires Invariant(s) && t in s.txs && s.txs[t].ResetRevoking? && id in Committed(s, t).sessions
    ensures Current(Committed(s, t), id)
  {
    assert Sound(s, s.txs[t]) && Current(s, id);
    assert id in LiveSessions(s, s.txs[t].user) ==> id in s.txs[t].revoked;
  }

  lemma ChangeCurrent(s: State, t: TxId, id: SessionId)
    requires Invariant(s) && t in s.txs && s.txs[t].ChangeMarking? && id in Committed(s, t).sessions
    ensures Current(Committed(s, t), id)
  {
    assert Sound(s, s.txs[t]) && Current(s, id);
    assert id in LiveSessions(s, s.txs[t].user) ==> id in s.txs[t].revoked + {s.txs[t].session};
  }

  lemma CommitCurrent(s: State, t: TxId, id: SessionId)
    requires Invariant(s) && t in s.txs && id in Committed(s, t).sessions
    ensures Current(Committed(s, t), id)
  {
    match s.txs[t]
    case CreateInserted(_, _, _) => CreateCurrent(s, t, id);
    case ResetRevoking(_, _, _, _) => ResetCurrent(s, t, id);
    case ChangeMarking(_, _, _, _, _, _) => ChangeCurrent(s, t, id);
    case _ => assert Current(s, id);
  }

  lemma CommitUsers(s: State, t: TxId)
    requires t in s.txs
    ensures var x, s' := s.txs[t], Committed(s, t);
            && s'.nextHash == s.nextHash
            && (s'.users == s.users || ((x.ResetRevoking? || x.ChangeMarking?) && s'.users == s.users[x.user := x.hash]))
  {
  }

  lemma HashIsTaken(s: State, x: Tx)
    requires Sound(s, x) && (x.ResetRevoking? || x.ChangeMarking?)
    ensures x.user in s.users && x.hash < s.nextHash
  {
  }

  lemma CommitHashes(s: State, t: TxId)
    requires t in s.txs && Sound(s, s.txs[t]) && forall u | u in s.users :: s.users[u] < s.nextHash
    ensures var s' := Committed(s, t);
            s'.users.Keys == s.users.Keys && forall u | u in s'.users :: s'.users[u] < s'.nextHash
  {
    var x := s.txs[t];
    CommitUsers(s, t);
    if x.ResetRevoking? || x.ChangeMarking? { HashIsTaken(s, x); }
  }

  lemma CommitTokens(s: State, t: TxId)
    requires t in s.txs && s.txs[t].user in s.users && forall k | k in s.tokens :: s.tokens[k].user in s.users
    ensures var s' := Committed(s, t);
            && (forall k | k in s'.tokens :: s'.tokens[k].user in s.users)
            && (forall k | k in s.tokens :: k in s'.tokens && (s.tokens[k].used ==> s'.tokens[k].used))
  {
  }

  lemma CommitRows(s: State, t: TxId)
    requires Invariant(s) && t in s.txs
    ensures var s' := Committed(s, t);
            && (forall u | u in s'.users :: s'.users[u] < s'.nextHash)
            && (forall k | k in s'.tokens :: s'.tokens[k].user in s'.users)
            && (forall k | k in s.tokens :: k in s'.tokens && (s.tokens[k].used ==> s'.tokens[k].used))
  {
    SoundNow(s, t);
    CommitHashes(s, t);
    CommitTokens(s, t);
  }

  lemma CommitRedeemed(s: State, t: TxId)
    requires Invariant(s) && t in s.txs
    ensures var s' := Committed(s, t);
            && (forall i | 0 <= i < |s'.redeemed| :: s'.redeemed[i] in s'.tokens && s'.tokens[s'.redeemed[i]].used)
            && (forall i, j | 0 <= i < j < |s'.redeemed| :: s'.redeemed[i] != s'.redeemed[j])
  {
    assert Sound(s, s.txs[t]);
    CommitRows(s, t);
  }

  lemma CommitSafe(s: State, t: TxId)
    requires Invariant(s) && t in s.txs
    ensures Safe(Committed(s, t))
  {
    forall id | id in Committed(s, t).sessions ensures Current(Committed(s, t), id) { CommitCurrent(s, t, id); }
    CommitRows(s, t);
    CommitRedeemed(s, t);
  }

  lemma CommitInvariant(s: State, t: TxId)
    requires Invariant(s) && t in s.txs
    ensures Invariant(Committed(s, t))
  {
    var x, s' := s.txs[t], Committed(s, t);
    CommitSafe(s, t);
    forall t' | t' in s'.txs ensures Sound(s', s'.txs[t']) {
      assert s'.txs[t'] == s.txs[t'] && Sound(s, s.txs[t']);
      if t' != t {
        match x
        case CreateInserted(_, _, _) => CommitCreateKeeps(s, t, t');
        case ResetRevoking(_, _, _, _) => CommitResetKeeps(s, t, t');
        case ChangeMarking(_, _, _, _, _, _) => CommitChangeKeeps(s, t, t');
        case RequestInserted(_, _, _) => CommitRequestKeeps(s, t, t');
        case _ =>
      }
    }
  }

  lemma RevokeInvariant(s: State, ids: set<SessionId>)
    requires Invariant(s)
    ensures Invariant(s.(sessions := Revoked(s.sessions, ids)))
  {
    var s' := s.(sessions := Revoked(s.sessions, ids));
    forall id | id in s'.sessions ensures Current(s', id) { assert Current(s, id); }
    forall t | t in s'.txs ensures Sound(s', s'.txs[t]) {
      var y := s.txs[t];
      assert Sound(s, y);
      assert LiveSessions(s', y.user) <= LiveSessions(s, y.user);
      assert LiveTokens(s', y.user) == LiveTokens(s, y.user);
    }
  }

  lemma RollbackInvariant(s: State, t: TxId)
    requires Invariant(s)
    ensures Invariant(s.(txs := s.txs - {t}))
  {
    var s' := s.(txs := s.txs - {t});
    forall id | id in s'.sessions ensures Current(s', id) { assert Current(s, id); }
    forall t' | t' in s'.txs ensures Sound(s', s'.txs[t']) {
      assert Sound(s, s.txs[t']);
      SameRows(s, s', s.txs[t']);
    }
  }

  lemma AdvanceInvariant(s: State, a: Action)
    requires Invariant(s) && !a.Logout? && !a.LogoutUser? && a.tx in s.txs && Advance(s, a.tx, a).Some?
    ensures Invariant(s.(txs := s.txs[a.tx := Advance(s, a.tx, a).value], nextHash := NextHash(s, a)))
  {
    AdvanceSound(s, a.tx, a);
    forall t' | t' in s.txs && t' != a.tx
      ensures Apart(Advance(s, a.tx, a).value, s.txs[t']) && Apart(s.txs[t'], Advance(s, a.tx, a).value)
    {
      AdvanceApart(s, a.tx, a, t');
    }
    MoveInvariant(s, a.tx, Advance(s, a.tx, a).value, NextHash(s, a));
  }

  lemma OpenInvariant(s: State, a: Action)
    requires Invariant(s) && !a.Logout? && !a.LogoutUser? && a.tx !in s.txs && Open(s, a).Some?
    ensures Invariant(s.(txs := s.txs[a.tx := Open(s, a).value], nextHash := NextHash(s, a)))
  {
    OpenSound(s, a);
    StillSound(s, NextHash(s, a), Open(s, a).value);
    forall t' | t' in s.txs ensures Apart(Open(s, a).value, s.txs[t']) && Apart(s.txs[t'], Open(s, a).value) {
      OpenApart(s, a, s.txs[t']);
    }
    MoveInvariant(s, a.tx, Open(s, a).value, NextHash(s, a));
  }

  lemma StatementInvariant(s: State, a: Action)
    requires Invariant(s) && !a.Logout? && !a.LogoutUser? && !a.Commit? && !a.Rollback?
    ensures Invariant(Step(s, a))
  {
    if a.tx in s.txs {
      if Advance(s, a.tx, a).Some? { AdvanceInvariant(s, a); }
    } else if Open(s, a).Some? {
      OpenInvariant(s, a);
    }
  }

  lemma StepInvariant(s: State, a: Action)
    requires Invariant(s)
    ensures Invariant(Step(s, a))
  {
    match a
    case Logout(session) => RevokeInvariant(s, {session});
    case LogoutUser(user, except) =>
      RevokeInvariant(s, if except.Some? then LiveSessions(s, user) - {except.value} else LiveSessions(s, user));
    case Commit(t) => if t in s.txs { CommitInvariant(s, t); }
    case Rollback(t) => RollbackInvariant(s, t);
    case _ => StatementInvariant(s, a);
  }

  // ----- every run

  /** A database at rest: no open transaction, live sessions under the present passwords, nothing redeemed yet. */
  ghost predicate AtRest(s: State) {
    && s.txs == map[] && s.latest == map[] && s.redeemed == []
    && (forall u | u in s.users :: s.users[u] < s.nextHash)
    && (forall k | k in s.tokens :: s.tokens[k].user in s.users)
    && forall id | id in s.sessions :: s.sessions[id].user in s.users && (s.sessions[id].revoked || s.sessions[id].under == s.users[s.sessions[id].user])
  }

  lemma {:induction false} PlayInvariant(s: State, actions: seq<Action>)
    requires AtRest(s)
    ensures Invariant(Play(s, actions))
  {
    if actions != [] {
      PlayInvariant(s, actions[..|actions| - 1]);
      StepInvariant(Play(s, actions[..|actions| - 1]), actions[|actions| - 1]);
    }
  }

  /** What some interleaving makes of a database at rest. */
  ghost predicate Reachable(r: State) {
    exists s, actions :: AtRest(s) && r == Play(s, actions)
  }

  lemma ReachableInvariant(r: State)
    requires Reachable(r)
    ensures Invariant(r)
  {
    var s, actions :| AtRest(s) && r == Play(s, actions);
    PlayInvariant(s, actions);
  }

  /**
   In every interleaving: a session that is not revoked was issued under the present password of its
   user, or is the session that made the latest change of it.
   */
  lemma LiveSessionsAreCurrent(r: State, id: SessionId)
    requires Reachable(r) && id in r.sessions && !r.sessions[id].revoked
    ensures var user := r.sessions[id].user;
            user in r.users && (r.sessions[id].under == r.users[user] || (user in r.latest && r.latest[user] == id))
  {
    ReachableInvariant(r);
    assert Current(r, id);
  }

  /** In every interleaving a reset token is redeemed at most once, and stays used afterwards. */
  lemma TokensAreRedeemedOnce(r: State)
    requires Reachable(r)
    ensures forall i, j | 0 <= i < j < |r.redeemed| :: r.redeemed[i] != r.redeemed[j]
    ensures forall i | 0 <= i < |r.redeemed| :: r.redeemed[i] in r.tokens && r.tokens[r.redeemed[i]].used
  {
    ReachableInvariant(r);
  }

  lemma ResetEndsSessions(r: State, t: TxId)
    requires Invariant(r) && t in r.txs && r.txs[t].ResetRevoking?
    ensures LiveSessions(Committed(r, t), r.txs[t].user) == {}
  {
    assert Sound(r, r.txs[t]);
  }

  lemma ChangeEndsOthers(r: State, t: TxId)
    requires Invariant(r) && t in r.txs && r.txs[t].ChangeMarking? && r.txs[t].pending == {}
    ensures LiveSessions(Committed(r, t), r.txs[t].user) <= {r.txs[t].session}
    ensures LiveTokens(Committed(r, t), r.txs[t].user) == {}
  {
    assert Sound(r, r.txs[t]);
  }

  /** A reset leaves no session of the user alive; a change leaves at most the session that made it, and no unused reset token. */
  lemma PasswordWriteEndsOthers(r: State, t: TxId)
    requires Reachable(r) && t in r.txs && (r.txs[t].ResetRevoking? || (r.txs[t].ChangeMarking? && r.txs[t].pending == {}))
    ensures var x, after := r.txs[t], Step(r, Commit(t));
            && after.users == r.users[x.user := x.hash]
            && (x.ResetRevoking? ==> LiveSessions(after, x.user) == {})
            && (x.ChangeMarking? ==> LiveSessions(after, x.user) <= {x.session} && LiveTokens(after, x.user) == {})
  {
    ReachableInvariant(r);
    if r.txs[t].ResetRevoking? { ResetEndsSessions(r, t); } else { ChangeEndsOthers(r, t); }
  }

  /** A committed sign-in was verified against the password that is in force at the commit. */
  lemma SignInMatchesPassword(r: State, t: TxId)
    requires Reachable(r) && t in r.txs && r.txs[t].CreateInserted? && r.txs[t].session !in r.sessions
    ensures var x, after := r.txs[t], Step(r, Commit(t));
            x.session in after.sessions && x.user in after.users && after.sessions[x.session] == Session(x.user, after.users[x.user], false)
  {
    ReachableInvariant(r);
    assert Sound(r, r.txs[t]);
  }

  lemma ResetSucceeds(s: State, t: TxId, k: TokenId, user: UserId, hash: Hash)
    requires s.txs == map[t := ResetRevoking(k, user, hash, LiveSessions(s, user))] && k in s.tokens
    ensures var r := Step(s, Commit(t));
            && r.txs == map[] && r.users == s.users[user := hash] && k in r.tokens && r.tokens[k].used
            && LiveSessions(r, user) == {} && r.redeemed == s.redeemed + [k]
  {
    assert Step(s, Commit(t)).txs == map[];
  }

  lemma TokenIsLocked(s: State, t: TxId, k: TokenId)
    requires s.txs == map[] && k in s.tokens && !s.tokens[k].used
    ensures Step(s, LockToken(t, k)) == s.(txs := map[t := ResetToken(k, s.tokens[k].user)])
  {
  }

  lemma ResetIsWritten(s: State, t: TxId, k: TokenId, user: UserId)
    requires s.txs == map[t := ResetToken(k, user)]
    ensures Step(s, WriteReset(t)) == s.(txs := map[t := ResetWritten(k, user, s.nextHash)], nextHash := s.nextHash + 1)
  {
    assert UserFree(s, user, NoKeyUpdate);
  }

  lemma ResetIsRevoking(s: State, t: TxId, k: TokenId, user: UserId, hash: Hash)
    requires s.txs == map[t := ResetWritten(k, user, hash)]
    ensures Step(s, RevokeForReset(t)) == s.(txs := map[t := ResetRevoking(k, user, hash, LiveSessions(s, user))])
  {
  }

  lemma ResetProceeds(s: State, t: TxId, k: TokenId)
    requires s.txs == map[] && k in s.tokens && !s.tokens[k].used
    ensures var user := s.tokens[k].user;
            var after := s.(txs := map[t := ResetRevoking(k, user, s.nextHash, LiveSessions(s, user))], nextHash := s.nextHash + 1);
            Step(Step(Step(s, LockToken(t, k)), WriteReset(t)), RevokeForReset(t)) == after
  {
    var user := s.tokens[k].user;
    var s1 := s.(txs := map[t := ResetToken(k, user)]);
    var s2 := s.(txs := map[t := ResetWritten(k, user, s.nextHash)], nextHash := s.nextHash + 1);
    TokenIsLocked(s, t, k);
    ResetIsWritten(s1, t, k, user);
    ResetIsRevoking(s2, t, k, user, s.nextHash);
    assert LiveSessions(s2, user) == LiveSessions(s, user);
  }

  /** Nothing stands in the way of a reset that meets no other transaction. */
  lemma UndisturbedReset(s: State, t: TxId, k: TokenId)
    requires s.txs == map[] && k in s.tokens && !s.tokens[k].used
    ensures var r := Step(Step(Step(Step(s, LockToken(t, k)), WriteReset(t)), RevokeForReset(t)), Commit(t));
            var user := s.tokens[k].user;
            && r.txs == map[] && r.users == s.users[user := s.nextHash] && k in r.tokens && r.tokens[k].used
            && LiveSessions(r, user) == {} && r.redeemed == s.redeemed + [k]
  {
    ResetProceeds(s, t, k);
    var user := s.tokens[k].user;
    var s3 := s.(txs := map[t := ResetRevoking(k, user, s.nextHash, LiveSessions(s, user))], nextHash := s.nextHash + 1);
    assert LiveSessions(s3, user) == LiveSessions(s, user);
    ResetSucceeds(s3, t, k, user, s.nextHash);
  }
}
