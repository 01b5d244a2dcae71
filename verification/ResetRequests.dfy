/** What a request for a password reset leaves behind when other transactions run beside it. */
module ResetRequests {
  import opened Outcomes
  import opened Sessions

  /** The token rows that a marking transaction still has to lock. */
  function Pending(x: Tx): set<TokenId> {
    if x.ChangeMarking? || x.RequestMarking? then x.pending else {}
  }

  /** The unused tokens of `user` in `r` that were not yet committed in `s`. */
  function Newcomers(s: State, r: State, user: UserId): set<TokenId> {
    set k | k in LiveTokens(r, user) && k !in s.tokens
  }

  /** Tokens never vanish, change hands or become unused again. */
  ghost predicate TokensGrow(s: State, r: State) {
    forall k | k in s.tokens :: k in r.tokens && r.tokens[k].user == s.tokens[k].user && (s.tokens[k].used ==> r.tokens[k].used)
  }

  /** Request `t`, whose statement looked in `s`: what it saw is locked, still to be locked, or used up by now. */
  ghost predicate Sees(s: State, r: State, t: TxId, user: UserId) {
    && t in r.txs && (r.txs[t].RequestMarking? || r.txs[t].RequestInserted?) && r.txs[t].user == user
    && LiveTokens(r, user) * s.tokens.Keys <= Pending(r.txs[t]) + r.txs[t].Rows() <= s.tokens.Keys
  }

  lemma CommitGrows(s: State, t: TxId)
    requires t in s.txs
    ensures TokensGrow(s, Committed(s, t))
  {
  }

  lemma StepGrows(s: State, a: Action)
    ensures TokensGrow(s, Step(s, a))
  {
    if a.Commit? && a.tx in s.txs { CommitGrows(s, a.tx); }
  }

  /** Only the commit of a request adds a token. */
  lemma OnlyRequestsAddTokens(s: State, a: Action, k: TokenId)
    requires k in Step(s, a).tokens && k !in s.tokens
    ensures a.Commit? && a.tx in s.txs && s.txs[a.tx].RequestInserted? && s.txs[a.tx].token == k
  {
  }

  lemma LiveShrinks(s: State, r: State, r': State, user: UserId)
    requires TokensGrow(s, r) && TokensGrow(r, r')
    ensures LiveTokens(r', user) * s.tokens.Keys <= LiveTokens(r, user) * s.tokens.Keys
  {
  }

  /** A commit, whether it goes through or not, leaves the other transactions as they are. */
  lemma CommitTxs(s: State, t: TxId)
    requires t in s.txs
    ensures Committed(s, t) == s || Committed(s, t).txs == s.txs - {t}
  {
  }

  lemma OtherStep(s: State, a: Action, t: TxId)
    requires t in s.txs && !(!a.Logout? && !a.LogoutUser? && a.tx == t)
    ensures t in Step(s, a).txs && Step(s, a).txs[t] == s.txs[t]
  {
    if a.Commit? && a.tx in s.txs { CommitTxs(s, a.tx); }
  }

  lemma OwnStepSees(s: State, r: State, a: Action, t: TxId, user: UserId)
    requires TokensGrow(s, r) && Sees(s, r, t, user)
    requires !a.Logout? && !a.LogoutUser? && !a.Commit? && !a.Rollback? && a.tx == t
    ensures Sees(s, Step(r, a), t, user)
  {
    assert LiveTokens(Step(r, a), user) == LiveTokens(r, user);
  }

  lemma StepSees(s: State, r: State, a: Action, t: TxId, user: UserId)
    requires TokensGrow(s, r) && Sees(s, r, t, user) && a != Commit(t) && a != Rollback(t)
    ensures TokensGrow(s, Step(r, a)) && Sees(s, Step(r, a), t, user)
  {
    StepGrows(r, a);
    LiveShrinks(s, r, Step(r, a), user);
    if !a.Logout? && !a.LogoutUser? && a.tx == t {
      OwnStepSees(s, r, a, t, user);
    } else {
      OtherStep(r, a, t);
    }
  }

  lemma {:induction false} RunSees(s: State, t: TxId, user: UserId, actions: seq<Action>)
    requires t !in s.txs && user in s.users && Commit(t) !in actions && Rollback(t) !in actions
    ensures var r := Play(Step(s, SnapForRequest(t, user)), actions); TokensGrow(s, r) && Sees(s, r, t, user)
  {
    var first := Step(s, SnapForRequest(t, user));
    if actions == [] {
      assert first.txs[t] == RequestMarking(user, LiveTokens(s, user), {});
      assert LiveTokens(first, user) == LiveTokens(s, user);
    } else {
      var init, last := actions[..|actions| - 1], actions[|actions| - 1];
      assert last in actions && forall a | a in init :: a in actions;
      RunSees(s, t, user, init);
      StepSees(s, Play(first, init), last, t, user);
    }
  }

  lemma RequestCommit(r: State, t: TxId)
    requires t in r.txs && r.txs[t].RequestInserted? && r.txs[t].token !in r.tokens
    ensures var x := r.txs[t]; LiveTokens(Committed(r, t), x.user) == LiveTokens(r, x.user) - x.marked + {x.token}
  {
    var x, after := r.txs[t], Committed(r, t);
    assert after.tokens == Used(r.tokens, x.marked)[x.token := Token(x.user, false)];
  }

  lemma SplitLive(s: State, r: State, user: UserId, marked: set<TokenId>)
    requires LiveTokens(r, user) * s.tokens.Keys <= marked <= s.tokens.Keys
    ensures LiveTokens(r, user) - marked == Newcomers(s, r, user)
  {
  }

  /**
   Over every run from the statement with which a request looks for unused tokens to its commit: the
   user is left with the new token and with those that other requests committed in between and that are
   still unused. So there is one unused token if and only if there are none of those.
   */
  lemma RequestLeavesOneToken(s: State, t: TxId, user: UserId, actions: seq<Action>, r: State)
    requires t !in s.txs && user in s.users && Commit(t) !in actions && Rollback(t) !in actions
    requires r == Play(Step(s, SnapForRequest(t, user)), actions)
    requires t in r.txs && r.txs[t].RequestInserted? && r.txs[t].token !in r.tokens
    ensures LiveTokens(Step(r, Commit(t)), user) == {r.txs[t].token} + Newcomers(s, r, user)
    ensures LiveTokens(Step(r, Commit(t)), user) == {r.txs[t].token} <==> Newcomers(s, r, user) == {}
  {
    RunSees(s, t, user, actions);
    RequestCommit(r, t);
    SplitLive(s, r, user, r.txs[t].marked);
    if Newcomers(s, r, user) != {} {
      var k :| k in Newcomers(s, r, user);
      assert k in LiveTokens(Step(r, Commit(t)), user) && k != r.txs[t].token;
    }
  }

  // ----- two overlapping requests

  function OneUser(tokens: map<TokenId, Token>): State {
    State(map[0 := 0], map[], tokens, map[], 1, map[], [])
  }

  function With(s: State, txs: map<TxId, Tx>, nextHash: Hash): State {
    s.(txs := txs, nextHash := nextHash)
  }

  lemma FirstRequest(s: State)
    requires s == OneUser(map[])
    ensures Step(s, SnapForRequest(1, 0)) == With(s, map[1 := RequestMarking(0, {}, {})], 1)
  {
    assert LiveTokens(s, 0) == {};
  }

  lemma SecondRequest(s: State)
    requires s == With(OneUser(map[]), map[1 := RequestMarking(0, {}, {})], 1)
    ensures Step(s, SnapForRequest(2, 0)) == With(s, map[1 := RequestMarking(0, {}, {}), 2 := RequestMarking(0, {}, {})], 1)
  {
    assert LiveTokens(s, 0) == {};
  }

  lemma FirstInsert(s: State)
    requires s == With(OneUser(map[]), map[1 := RequestMarking(0, {}, {}), 2 := RequestMarking(0, {}, {})], 1)
    ensures Step(s, InsertToken(1, 5)) == With(s, map[1 := RequestInserted(0, {}, 5), 2 := RequestMarking(0, {}, {})], 1)
  {
    assert UserFree(s, 0, KeyShare);
  }

  lemma SecondInsert(s: State)
    requires s == With(OneUser(map[]), map[1 := RequestInserted(0, {}, 5), 2 := RequestMarking(0, {}, {})], 1)
    ensures Step(s, InsertToken(2, 6)) == With(s, map[1 := RequestInserted(0, {}, 5), 2 := RequestInserted(0, {}, 6)], 1)
  {
    assert UserFree(s, 0, KeyShare);
  }

  lemma FirstCommit(s: State)
    requires s == With(OneUser(map[]), map[1 := RequestInserted(0, {}, 5), 2 := RequestInserted(0, {}, 6)], 1)
    ensures Step(s, Commit(1)) == With(OneUser(map[5 := Token(0, false)]), map[2 := RequestInserted(0, {}, 6)], 1)
  {
  }

  lemma SecondCommit(s: State)
    requires s == With(OneUser(map[5 := Token(0, false)]), map[2 := RequestInserted(0, {}, 6)], 1)
    ensures Step(s, Commit(2)) == OneUser(map[5 := Token(0, false), 6 := Token(0, false)])
  {
  }

  lemma OverlapRun(s: State, actions: seq<Action>)
    requires s == OneUser(map[])
    requires actions == [SnapForRequest(1, 0), SnapForRequest(2, 0), InsertToken(1, 5), InsertToken(2, 6), Commit(1), Commit(2)]
    ensures Play(s, actions) == OneUser(map[5 := Token(0, false), 6 := Token(0, false)])
  {
    FirstRequest(s);
    SecondRequest(Step(s, actions[0]));
    var s2 := Step(Step(s, actions[0]), actions[1]);
    FirstInsert(s2);
    SecondInsert(Step(s2, actions[2]));
    var s4 := Step(Step(s2, actions[2]), actions[3]);
    FirstCommit(s4);
    SecondCommit(Step(s4, actions[4]));
    PlaySix(s, actions);
  }

  lemma PlayIsReachable(s: State, actions: seq<Action>)
    requires AtRest(s)
    ensures Reachable(Play(s, actions))
  {
  }

  /** Two requests that overlap leave two tokens live. */
  lemma OverlappingRequests() returns (r: State)
    ensures Reachable(r) && |LiveTokens(r, 0)| == 2
  {
    var s := OneUser(map[]);
    var actions := [SnapForRequest(1, 0), SnapForRequest(2, 0), InsertToken(1, 5), InsertToken(2, 6), Commit(1), Commit(2)];
    OverlapRun(s, actions);
    PlayIsReachable(s, actions);
    r := Play(s, actions);
    TwoLive(r);
  }

  lemma TwoLive(s: State)
    requires s == OneUser(map[5 := Token(0, false), 6 := Token(0, false)])
    ensures |LiveTokens(s, 0)| == 2
  {
    assert LiveTokens(s, 0) == {5, 6};
  }

  lemma PlaySix(s: State, actions: seq<Action>)
    requires |actions| == 6
    ensures Play(s, actions)
         == Step(Step(Step(Step(Step(Step(s, actions[0]), actions[1]), actions[2]), actions[3]), actions[4]), actions[5])
  {
    PlayFive(s, actions[..5]);
  }

  lemma PlayFive(s: State, actions: seq<Action>)
    requires |actions| == 5
    ensures Play(s, actions) == Step(Step(Step(Step(Step(s, actions[0]), actions[1]), actions[2]), actions[3]), actions[4])
  {
    assert actions[..4][..3] == actions[..3] && actions[..3][..2] == actions[..2] && actions[..2][..1] == actions[..1] && actions[..1][..0] == [];
    assert Play(s, actions[..1]) == Step(s, actions[0]);
    assert Play(s, actions[..2]) == Step(Play(s, actions[..1]), actions[1]);
    assert Play(s, actions[..3]) == Step(Play(s, actions[..2]), actions[2]);
    assert Play(s, actions[..4]) == Step(Play(s, actions[..3]), actions[3]);
  }
}
