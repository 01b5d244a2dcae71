/**
 Who waits for whom. Transactions that lock the same rows in different orders can wait in a circle;
 such circles have exactly three shapes, and nothing else keeps the whole system from moving on.
 */
module SessionWaits {
  import opened Outcomes
  import opened Sessions
  import opened ResetRequests

  /** The lock on its user that a transaction still has to take. */
  function Wanted(x: Tx): set<LockMode> {
    match x
    case ResetToken(_, _) => {NoKeyUpdate}
    case RequestMarking(_, _, _) => {KeyShare}
    case _ => {}
  }

  ghost predicate BarsUser(x: Tx, y: Tx) {
    x.user == y.user && exists m :: m in Wanted(x) && !Compatible(y.Mode(), m)
  }

  /** `t` cannot commit before `t'` has ended: `t'` holds a lock that `t` still needs. */
  ghost predicate Waits(s: State, t: TxId, t': TxId) {
    t in s.txs && t' in s.txs && t != t' && (Pending(s.txs[t]) * s.txs[t'].Rows() != {} || BarsUser(s.txs[t], s.txs[t']))
  }

  /** Transactions that wait for each other in a circle. */
  ghost predicate Ring(s: State, c: seq<TxId>) {
    c != [] && Waits(s, c[|c| - 1], c[0]) && forall i | 0 < i < |c| :: Waits(s, c[i - 1], c[i])
  }

  /**
   The three shapes: a change and a reset, where the change still has to mark the token that is being
   redeemed; a change and a request that has marked a token which the change still has to mark; and two
   requests that each have marked a token which the other still has to mark.
   */
  ghost predicate Entangled(s: State, t: TxId, t': TxId) {
    t in s.txs && t' in s.txs && t != t' && Tangle(s.txs[t], s.txs[t'])
  }

  ghost predicate Tangle(x: Tx, y: Tx) {
    || (x.ChangeMarking? && y.ResetToken? && x.user == y.user && y.token in x.pending)
    || (x.ChangeMarking? && y.RequestMarking? && x.user == y.user && x.pending * y.marked != {})
    || (x.RequestMarking? && y.RequestMarking? && x.pending * y.marked != {} && y.pending * x.marked != {})
  }

  // ----- what is known about marked and pending tokens

  /** Locked tokens are unused tokens of the user, and no longer pending. */
  ghost predicate Tidy(s: State, x: Tx) {
    x.Rows() <= LiveTokens(s, x.user) && Own(s, x.user, Pending(x)) && Pending(x) !! x.Rows()
  }

  /** The tokens that a request saw and that are still unused. */
  function Seen(s: State, x: Tx): set<TokenId> {
    (Pending(x) + x.Rows()) * LiveTokens(s, x.user)
  }

  /** Of two requests of a user, the later saw all that the earlier did. */
  ghost predicate Nested(s: State, x: Tx, y: Tx) {
    x.RequestMarking? && y.RequestMarking? && x.user == y.user ==> Seen(s, x) <= Seen(s, y) || Seen(s, y) <= Seen(s, x)
  }

  ghost predicate Orderly(s: State) {
    && (forall t {:trigger TidyAt(s, t)} | t in s.txs :: TidyAt(s, t))
    && forall t, t' {:trigger NestedAt(s, t, t')} | t in s.txs && t' in s.txs :: NestedAt(s, t, t')
  }

  ghost predicate TidyAt(s: State, t: TxId)
    requires t in s.txs
  {
    Tidy(s, s.txs[t])
  }

  ghost predicate NestedAt(s: State, t: TxId, t': TxId)
    requires t in s.txs && t' in s.txs
  {
    Nested(s, s.txs[t], s.txs[t'])
  }

  // ----- kept by every step

  lemma SameTokens(s: State, s': State, x: Tx, y: Tx)
    requires s'.tokens == s.tokens
    ensures Tidy(s, x) <==> Tidy(s', x)
    ensures Nested(s, x, y) <==> Nested(s', x, y)
  {
    assert LiveTokens(s', x.user) == LiveTokens(s, x.user) && LiveTokens(s', y.user) == LiveTokens(s, y.user);
  }

  /** Committed rows of tokens stay, and every transaction but `t` is as before or gone. */
  lemma MoveOrderly(s: State, s': State, t: TxId)
    requires Orderly(s) && s'.tokens == s.tokens
    requires forall t' | t' in s'.txs && t' != t :: t' in s.txs && s'.txs[t'] == s.txs[t']
    requires t in s'.txs ==> Tidy(s, s'.txs[t])
    requires t in s'.txs ==> forall t' | t' in s.txs && t' != t :: Nested(s, s'.txs[t], s.txs[t']) && Nested(s, s.txs[t'], s'.txs[t])
    ensures Orderly(s')
  {
    forall t' | t' in s'.txs ensures TidyAt(s', t') {
      assert t' != t ==> TidyAt(s, t');
      SameTokens(s, s', s'.txs[t'], s'.txs[t']);
    }
    forall t', t'' | t' in s'.txs && t'' in s'.txs ensures NestedAt(s', t', t'') {
      assert t' != t && t'' != t ==> NestedAt(s, t', t'');
      SameTokens(s, s', s'.txs[t'], s'.txs[t'']);
    }
  }

  /** What a commit uses up. */
  function Spent(s: State, t: TxId): set<TokenId>
    requires t in s.txs
  {
    if t in Committed(s, t).txs || Committed(s, t).tokens == s.tokens then {} else s.txs[t].Rows()
  }

  lemma CommitLive(s: State, t: TxId, user: UserId, k: TokenId)
    requires t in s.txs && k in s.tokens
    ensures k in LiveTokens(Committed(s, t), user) <==> k in LiveTokens(s, user) && k !in Spent(s, t)
  {
  }

  lemma CommitTidy(s: State, t: TxId, t': TxId)
    requires Invariant(s) && Orderly(s) && t in s.txs && t' in s.txs && t' != t
    ensures Tidy(Committed(s, t), s.txs[t'])
    ensures Seen(Committed(s, t), s.txs[t']) == Seen(s, s.txs[t']) - Spent(s, t)
  {
    var y, s' := s.txs[t'], Committed(s, t);
    CommitGrows(s, t);
    assert TidyAt(s, t') && Apart(s.txs[t], y);
    forall k | k in s.tokens ensures k in LiveTokens(s', y.user) <==> k in LiveTokens(s, y.user) && k !in Spent(s, t) {
      CommitLive(s, t, y.user, k);
    }
  }

  lemma CommitNested(s: State, t: TxId, t': TxId, t'': TxId)
    requires Invariant(s) && Orderly(s) && t in s.txs && t' in s.txs && t' != t && t'' in s.txs && t'' != t
    ensures Nested(Committed(s, t), s.txs[t'], s.txs[t''])
  {
    assert NestedAt(s, t', t'');
    CommitTidy(s, t, t');
    CommitTidy(s, t, t'');
  }

  lemma CommitOrderly(s: State, t: TxId)
    requires Invariant(s) && Orderly(s) && t in s.txs
    ensures Orderly(Committed(s, t))
  {
    CommitTxs(s, t);
    var s' := Committed(s, t);
    if s' != s {
      forall t' | t' in s'.txs ensures TidyAt(s', t') { CommitTidy(s, t, t'); }
      forall t', t'' | t' in s'.txs && t'' in s'.txs ensures NestedAt(s', t', t'') {
        CommitNested(s, t, t', t'');
      }
    }
  }

  lemma OpenTidy(s: State, a: Action, y: Tx)
    requires Invariant(s) && Open(s, a).Some?
    ensures Tidy(s, Open(s, a).value)
    ensures Nested(s, Open(s, a).value, y) && Nested(s, y, Open(s, a).value)
  {
  }

  lemma MarkTidy(s: State, t: TxId, k: TokenId)
    requires Orderly(s) && t in s.txs && Advance(s, t, MarkToken(t, k)).Some?
    ensures Tidy(s, Advance(s, t, MarkToken(t, k)).value)
  {
    assert TidyAt(s, t);
  }

  lemma PlainTidy(s: State, t: TxId, a: Action)
    requires t in s.txs && Sound(s, s.txs[t]) && Tidy(s, s.txs[t]) && Advance(s, t, a).Some? && !a.MarkToken?
    ensures Tidy(s, Advance(s, t, a).value)
  {
    var x, next := s.txs[t], Advance(s, t, a).value;
    assert next.ChangeMarking? || Pending(next) == {};
    assert next.ChangeMarking? || next.Rows() == x.Rows();
  }

  lemma AdvanceTidy(s: State, t: TxId, a: Action)
    requires Invariant(s) && Orderly(s) && t in s.txs && Advance(s, t, a).Some?
    ensures Tidy(s, Advance(s, t, a).value)
  {
    if a.MarkToken? {
      assert Advance(s, t, a) == Advance(s, t, MarkToken(t, a.token));
      MarkTidy(s, t, a.token);
    } else {
      assert TidyAt(s, t) && Sound(s, s.txs[t]);
      PlainTidy(s, t, a);
    }
  }

  /** A statement does not change what a request saw. */
  lemma AdvanceSeen(s: State, t: TxId, a: Action)
    requires t in s.txs && Advance(s, t, a).Some? && Advance(s, t, a).value.RequestMarking?
    ensures s.txs[t].RequestMarking? && Advance(s, t, a).value.user == s.txs[t].user
    ensures Seen(s, Advance(s, t, a).value) == Seen(s, s.txs[t])
  {
  }

  lemma AdvanceNested(s: State, t: TxId, a: Action, t': TxId)
    requires Orderly(s) && t in s.txs && Advance(s, t, a).Some? && t' in s.txs
    ensures Nested(s, Advance(s, t, a).value, s.txs[t']) && Nested(s, s.txs[t'], Advance(s, t, a).value)
  {
    if Advance(s, t, a).value.RequestMarking? {
      AdvanceSeen(s, t, a);
      assert NestedAt(s, t, t');
    }
  }

  lemma AdvanceOrderly(s: State, a: Action)
    requires Invariant(s) && Orderly(s) && !a.Logout? && !a.LogoutUser? && !a.Commit? && !a.Rollback?
    requires a.tx in s.txs && Advance(s, a.tx, a).Some?
    ensures Orderly(Step(s, a))
  {
    AdvanceTidy(s, a.tx, a);
    forall t' | t' in s.txs { AdvanceNested(s, a.tx, a, t'); }
    MoveOrderly(s, Step(s, a), a.tx);
  }

  lemma OpenOrderly(s: State, a: Action)
    requires Invariant(s) && Orderly(s) && !a.Logout? && !a.LogoutUser? && !a.Commit? && !a.Rollback?
    requires a.tx !in s.txs && Open(s, a).Some?
    ensures Orderly(Step(s, a))
  {
    OpenTidy(s, a, Open(s, a).value);
    forall t' | t' in s.txs { OpenTidy(s, a, s.txs[t']); }
    MoveOrderly(s, Step(s, a), a.tx);
  }

  lemma StatementOrderly(s: State, a: Action)
    requires Invariant(s) && Orderly(s) && !a.Logout? && !a.LogoutUser? && !a.Commit? && !a.Rollback?
    ensures Orderly(Step(s, a))
  {
    if a.tx in s.txs {
      if Advance(s, a.tx, a).Some? { AdvanceOrderly(s, a); }
    } else if Open(s, a).Some? {
      OpenOrderly(s, a);
    }
  }

  lemma StepOrderly(s: State, a: Action)
    requires Invariant(s) && Orderly(s)
    ensures Orderly(Step(s, a))
  {
    match a
    case Logout(_) => LogoutOrderly(s, Step(s, a));
    case LogoutUser(_, _) => LogoutOrderly(s, Step(s, a));
    case Commit(t) => if t in s.txs { CommitOrderly(s, t); }
    case Rollback(t) => MoveOrderly(s, Step(s, a), t);
    case _ => StatementOrderly(s, a);
  }

  lemma LogoutOrderly(s: State, s': State)
    requires Orderly(s) && s'.tokens == s.tokens && s'.txs == s.txs
    ensures Orderly(s')
  {
    forall t, t' | t in s'.txs && t' in s'.txs ensures TidyAt(s', t) && NestedAt(s', t, t') {
      assert TidyAt(s, t) && NestedAt(s, t, t');
      SameTokens(s, s', s.txs[t], s.txs[t']);
    }
  }

  lemma {:induction false} RunOrderly(s: State, actions: seq<Action>)
    requires AtRest(s)
    ensures Orderly(Play(s, actions))
  {
    if actions != [] {
      var init := actions[..|actions| - 1];
      PlayInvariant(s, init);
      RunOrderly(s, init);
      StepOrderly(Play(s, init), actions[|actions| - 1]);
    }
  }

  lemma ReachableOrderly(r: State)
    requires Reachable(r)
    ensures Invariant(r) && Orderly(r)
  {
    var s, actions :| AtRest(s) && r == Play(s, actions);
    PlayInvariant(s, actions);
    RunOrderly(s, actions);
  }

  // ----- which circles there are

  predicate HoldsPassword(x: Tx) {
    x.CreateLocked? || x.CreateInserted? || x.ResetWritten? || x.ResetRevoking? || Changes(x)
  }

  predicate Changes(x: Tx) {
    x.ChangeLocked? || x.ChangeWritten? || x.ChangeRevoking? || x.ChangeMarking?
  }

  lemma ModesHeld(x: Tx)
    ensures Compatible(x.Mode(), NoKeyUpdate) <==> !HoldsPassword(x)
    ensures Compatible(x.Mode(), KeyShare) <==> !Changes(x)
  {
    assert HoldsPassword(x) ==> Share in x.Mode() || NoKeyUpdate in x.Mode() || Update in x.Mode();
    assert Changes(x) ==> Update in x.Mode();
  }

  /** A locked token is an unused token of the user of whoever locks it. */
  lemma HolderOwns(s: State, t: TxId, t': TxId, k: TokenId)
    requires Orderly(s) && t in s.txs && t' in s.txs && k in Pending(s.txs[t]) && k in s.txs[t'].Rows()
    ensures t != t' && s.txs[t].user == s.txs[t'].user && k in LiveTokens(s, s.txs[t].user)
  {
    assert TidyAt(s, t) && TidyAt(s, t');
  }

  lemma BesideChange(x: Tx, y: Tx)
    requires Apart(x, y) && x.user == y.user && x.ChangeMarking? && y.Rows() != {}
    ensures y.ResetToken? || y.RequestMarking?
  {
    assert Update in x.Mode();
    assert forall m | m in y.Mode() :: Conflict(Update, m);
    assert y.Mode() == {};
  }

  /** Whoever keeps a change from its tokens is entangled with it. */
  lemma ChangeIsEntangled(s: State, t: TxId, t': TxId, k: TokenId)
    requires Invariant(s) && Orderly(s) && t in s.txs && s.txs[t].ChangeMarking?
    requires t' in s.txs && k in s.txs[t].pending && k in s.txs[t'].Rows()
    ensures Entangled(s, t, t')
  {
    HolderOwns(s, t, t', k);
    assert Apart(s.txs[t], s.txs[t']);
    BesideChange(s.txs[t], s.txs[t']);
    assert s.txs[t'].RequestMarking? ==> k in s.txs[t].pending * s.txs[t'].marked;
  }

  /** How many unused tokens a request saw. */
  function Sight(s: State, t: TxId): nat {
    if t in s.txs then |Seen(s, s.txs[t])| else 0
  }

  function SightOf(s: State): TxId -> nat {
    (t: TxId) => Sight(s, t)
  }

  /** Of requests that wait for each other's tokens, the one that saw least is entangled. */
  lemma RequestIsEntangled(s: State, t: TxId, t': TxId, k: TokenId)
    requires Invariant(s) && Orderly(s) && t in s.txs && t' in s.txs && s.txs[t].RequestMarking? && s.txs[t'].RequestMarking?
    requires k in s.txs[t].pending && k in s.txs[t'].marked && s.txs[t].marked != {}
    requires Sight(s, t) <= Sight(s, t')
    ensures Entangled(s, t, t')
  {
    HolderOwns(s, t, t', k);
    var x, y := s.txs[t], s.txs[t'];
    var j :| j in x.marked;
    assert TidyAt(s, t) && TidyAt(s, t') && NestedAt(s, t, t');
    if !(Seen(s, x) <= Seen(s, y)) {
      SmallerIsFewer(Seen(s, y), Seen(s, x));
      assert false;
    }
    assert j in Seen(s, x);
    assert Apart(x, y);
    assert j in y.pending;
  }

  lemma SmallerIsFewer(a: set<TokenId>, b: set<TokenId>)
    requires a <= b && !(b <= a)
    ensures |a| < |b|
  {
    var k :| k in b && k !in a;
    assert b == (b - a) + a && b - a != {};
  }

  /** Transactions of which each waits for another of them. */
  ghost predicate Knot(s: State, group: set<TxId>) {
    group != {} && forall t {:trigger Stays(s, group, t)} | t in group :: Stays(s, group, t)
  }

  ghost predicate Stays(s: State, group: set<TxId>, t: TxId) {
    exists t' :: t' in group && Waits(s, t, t')
  }

  lemma {:induction false} LeastOf(group: set<TxId>, f: TxId -> nat) returns (least: TxId)
    requires group != {}
    ensures least in group && forall t | t in group :: f(least) <= f(t)
  {
    var t :| t in group;
    if group == {t} {
      least := t;
    } else {
      var rest := group - {t};
      assert group == rest + {t} && rest != {};
      var other := LeastOf(rest, f);
      least := if f(other) < f(t) then other else t;
    }
  }

  /** Who waits: a marking transaction for a token, a reset or a request for its user. */
  lemma WaitingKinds(s: State, t: TxId, t': TxId)
    requires Waits(s, t, t')
    ensures var x, y := s.txs[t], s.txs[t'];
            || (x.ChangeMarking? && x.pending * y.Rows() != {})
            || (x.ResetToken? && HoldsPassword(y))
            || (x.RequestMarking? && (x.pending * y.Rows() != {} || Changes(y)))
  {
    var x, y := s.txs[t], s.txs[t'];
    ModesHeld(y);
    if BarsUser(x, y) {
      var m :| m in Wanted(x) && !Compatible(y.Mode(), m);
    }
  }

  /** Request `t` still has to mark a token that request `t'` has marked. */
  ghost predicate WantsMark(s: State, t: TxId, t': TxId) {
    && t in s.txs && t' in s.txs && s.txs[t].RequestMarking? && s.txs[t'].RequestMarking?
    && s.txs[t].pending * s.txs[t'].marked != {}
  }

  ghost predicate NoChange(s: State, group: set<TxId>) {
    forall t | t in group && t in s.txs :: !s.txs[t].ChangeMarking?
  }

  lemma NextInKnot(s: State, group: set<TxId>, t: TxId) returns (t': TxId)
    requires Knot(s, group) && t in group
    ensures t' in group && Waits(s, t, t')
  {
    assert Stays(s, group, t);
    t' :| t' in group && Waits(s, t, t');
  }

  /** Without a change, who waits for somebody that waits is a request. */
  lemma WaitsForWaiting(s: State, group: set<TxId>, t: TxId, t': TxId, t'': TxId)
    requires NoChange(s, group) && t in group && t' in group && Waits(s, t, t') && Waits(s, t', t'')
    ensures s.txs[t].RequestMarking? && s.txs[t].pending * s.txs[t'].Rows() != {}
  {
    WaitingKinds(s, t, t');
    WaitingKinds(s, t', t'');
  }

  lemma RequestsInKnot(s: State, group: set<TxId>, t: TxId) returns (t': TxId)
    requires Knot(s, group) && NoChange(s, group) && t in group
    ensures t' in group && WantsMark(s, t, t')
  {
    t' := NextInKnot(s, group, t);
    var second := NextInKnot(s, group, t');
    var third := NextInKnot(s, group, second);
    WaitsForWaiting(s, group, t, t', second);
    WaitsForWaiting(s, group, t', second, third);
  }

  lemma LeastWaits(s: State, t: TxId, t': TxId)
    requires Invariant(s) && Orderly(s) && WantsMark(s, t, t') && s.txs[t].marked != {}
    requires SightOf(s)(t) <= SightOf(s)(t')
    ensures Entangled(s, t, t')
  {
    var k :| k in s.txs[t].pending * s.txs[t'].marked;
    assert SightOf(s)(t) == Sight(s, t) && SightOf(s)(t') == Sight(s, t');
    RequestIsEntangled(s, t, t', k);
  }

  /** Those of the group that have marked a token. */
  function Markers(s: State, group: set<TxId>): set<TxId> {
    set t | t in group && t in s.txs && s.txs[t].Rows() != {}
  }

  lemma NextMarker(s: State, group: set<TxId>, t: TxId) returns (t': TxId)
    requires Knot(s, group) && NoChange(s, group) && t in group
    ensures t' in Markers(s, group) && WantsMark(s, t, t')
  {
    t' := RequestsInKnot(s, group, t);
  }

  /** Whatever is counted, some marker waits for the mark of a marker that has at least as much of it. */
  lemma LeastMarker(s: State, group: set<TxId>, f: TxId -> nat) returns (t: TxId, t': TxId)
    requires Knot(s, group) && NoChange(s, group)
    ensures WantsMark(s, t, t') && t in Markers(s, group) && f(t) <= f(t')
  {
    var first :| first in group;
    t' := NextMarker(s, group, first);
    t := LeastOf(Markers(s, group), f);
    t' := NextMarker(s, group, t);
  }

  lemma KnotOfRequests(s: State, group: set<TxId>) returns (t: TxId, t': TxId)
    requires Invariant(s) && Orderly(s) && Knot(s, group) && NoChange(s, group)
    ensures Entangled(s, t, t')
  {
    t, t' := LeastMarker(s, group, SightOf(s));
    LeastWaits(s, t, t');
  }

  lemma KnotOfChange(s: State, t: TxId, t': TxId)
    requires Invariant(s) && Orderly(s) && Waits(s, t, t') && s.txs[t].ChangeMarking?
    ensures Entangled(s, t, t')
  {
    WaitingKinds(s, t, t');
    var k :| k in s.txs[t].pending * s.txs[t'].Rows();
    ChangeIsEntangled(s, t, t', k);
  }

  lemma KnotIsEntangled(s: State, group: set<TxId>) returns (t: TxId, t': TxId)
    requires Invariant(s) && Orderly(s) && Knot(s, group)
    ensures Entangled(s, t, t')
  {
    if NoChange(s, group) {
      t, t' := KnotOfRequests(s, group);
    } else {
      t :| t in group && t in s.txs && s.txs[t].ChangeMarking?;
      assert Stays(s, group, t);
      t' :| t' in group && Waits(s, t, t');
      KnotOfChange(s, t, t');
    }
  }

  lemma EntangledWait(s: State, t: TxId, t': TxId)
    requires Invariant(s) && Entangled(s, t, t')
    ensures Waits(s, t, t') && Waits(s, t', t)
  {
    var x, y := s.txs[t], s.txs[t'];
    ModesHeld(x);
    if y.ResetToken? {
      assert y.token in Pending(x) * y.Rows();
      assert NoKeyUpdate in Wanted(y);
    } else if x.ChangeMarking? {
      assert KeyShare in Wanted(y);
    }
  }

  lemma EntangledRing(s: State, t: TxId, t': TxId)
    requires Invariant(s) && Entangled(s, t, t')
    ensures Ring(s, [t, t'])
  {
    EntangledWait(s, t, t');
  }

  lemma NextInRing(s: State, c: seq<TxId>, i: nat) returns (t': TxId)
    requires Ring(s, c) && i < |c|
    ensures t' in c && Waits(s, c[i], t')
  {
    if i == |c| - 1 {
      t' := c[0];
    } else {
      t' := c[i + 1];
      assert Waits(s, c[i + 1 - 1], c[i + 1]);
    }
  }

  lemma RingIsKnot(s: State, c: seq<TxId>)
    requires Ring(s, c)
    ensures Knot(s, set t | t in c)
  {
    var group := set t | t in c;
    assert c[0] in group;
    forall t | t in group ensures Stays(s, group, t) {
      var i :| 0 <= i < |c| && c[i] == t;
      var t' := NextInRing(s, c, i);
    }
  }

  /**
   In every reachable state: transactions wait for each other in a circle if and only if two of them are
   entangled in one of the three shapes.
   */
  lemma CirclesAreEntangled(r: State)
    requires Reachable(r)
    ensures (exists c :: Ring(r, c)) <==> (exists t, t' :: Entangled(r, t, t'))
  {
    ReachableOrderly(r);
    if c :| Ring(r, c) {
      RingIsKnot(r, c);
      var t, t' := KnotIsEntangled(r, set t | t in c);
    }
    if t, t' :| Entangled(r, t, t') {
      EntangledRing(r, t, t');
    }
  }

  // ----- who can go on

  /** The transaction can do nothing but roll back. */
  ghost predicate Stalled(s: State, t: TxId) {
    forall a: Action | !a.Logout? && !a.LogoutUser? && !a.Rollback? && a.tx == t :: Step(s, a) == s
  }

  /** Some other transaction holds the row of token `k`. */
  ghost predicate HeldByOther(s: State, t: TxId, k: TokenId) {
    exists t' :: t' in s.txs && t' != t && k in s.txs[t'].Rows()
  }

  /** Kind by kind, the lock that keeps a transaction from its next statement. */
  ghost predicate Blocked(s: State, t: TxId)
    requires t in s.txs
  {
    match s.txs[t]
    case ResetToken(_, user) => exists t' :: t' in s.txs && s.txs[t'].user == user && HoldsPassword(s.txs[t'])
    case ChangeMarking(_, _, _, _, pending, _) => pending != {} && forall k | k in pending :: HeldByOther(s, t, k)
    case RequestMarking(user, pending, _) =>
      if pending == {} then exists t' :: t' in s.txs && s.txs[t'].user == user && Changes(s.txs[t'])
      else forall k | k in pending :: HeldByOther(s, t, k)
    case _ => false
  }

  lemma Unheld(s: State, user: UserId)
    ensures UserFree(s, user, NoKeyUpdate) <==> !exists t' :: t' in s.txs && s.txs[t'].user == user && HoldsPassword(s.txs[t'])
    ensures UserFree(s, user, KeyShare) <==> !exists t' :: t' in s.txs && s.txs[t'].user == user && Changes(s.txs[t'])
  {
    forall t' | t' in s.txs { ModesHeld(s.txs[t']); }
  }

  lemma TokenUnheld(s: State, t: TxId, k: TokenId)
    requires t in s.txs && k !in s.txs[t].Rows()
    ensures TokenFree(s, k) <==> !HeldByOther(s, t, k)
  {
  }

  lemma {:induction false} Fresh(ids: set<nat>) returns (id: nat)
    ensures id !in ids && forall x | x in ids :: x < id
  {
    if ids == {} {
      id := 0;
    } else {
      var x :| x in ids;
      var rest := Fresh(ids - {x});
      id := if rest <= x then x + 1 else rest;
      forall y | y in ids ensures y < id { assert y == x || y in ids - {x}; }
    }
  }

  lemma BlockedNowhere(s: State, t: TxId, a: Action)
    requires t in s.txs && Tidy(s, s.txs[t]) && Blocked(s, t)
    requires !a.Logout? && !a.LogoutUser? && !a.Rollback? && !a.Commit?
    ensures Advance(s, t, a) == None
  {
    Unheld(s, s.txs[t].user);
    if a.MarkToken? && a.token in Pending(s.txs[t]) {
      TokenUnheld(s, t, a.token);
      assert HeldByOther(s, t, a.token);
    }
  }

  lemma BlockedStalls(s: State, t: TxId)
    requires Orderly(s) && t in s.txs && Blocked(s, t)
    ensures Stalled(s, t)
  {
    assert TidyAt(s, t);
    forall a: Action | !a.Logout? && !a.LogoutUser? && !a.Rollback? && a.tx == t ensures Step(s, a) == s {
      if !a.Commit? { BlockedNowhere(s, t, a); }
    }
  }

  /** A transaction that no lock keeps back has a statement or a commit that changes the state. */
  lemma UnblockedMoves(s: State, t: TxId) returns (a: Action)
    requires Orderly(s) && t in s.txs && !Blocked(s, t)
    ensures !a.Logout? && !a.LogoutUser? && !a.Rollback? && a.tx == t && Step(s, a) != s
  {
    var x := s.txs[t];
    assert TidyAt(s, t);
    if Pending(x) != {} {
      a := MarksNext(s, t);
    } else if x.CreateInserted? || x.ResetRevoking? || x.RequestInserted? || x.ChangeMarking? {
      a := Commit(t);
      assert t !in Step(s, a).txs;
    } else {
      a := MovesOn(s, t);
    }
  }

  /** The next statement of a transaction, where it is one that needs no token and no fresh row. */
  function NextStatement(t: TxId, x: Tx): (a: Action)
    requires x.ResetToken? || x.ResetWritten? || x.ChangeLocked? || x.ChangeWritten? || x.ChangeRevoking?
    ensures !a.Logout? && !a.LogoutUser? && !a.Rollback? && a.tx == t
  {
    match x
    case ResetToken(_, _) => WriteReset(t)
    case ResetWritten(_, _, _) => RevokeForReset(t)
    case ChangeLocked(_, _) => WriteChange(t)
    case ChangeWritten(_, _, _) => RevokeForChange(t)
    case ChangeRevoking(_, _, _, _) => SnapTokens(t)
  }

  lemma MovesPlainly(s: State, t: TxId)
    requires t in s.txs && !Blocked(s, t)
    requires var x := s.txs[t]; x.ResetToken? || x.ResetWritten? || x.ChangeLocked? || x.ChangeWritten? || x.ChangeRevoking?
    ensures Step(s, NextStatement(t, s.txs[t])) != s
  {
    var a := NextStatement(t, s.txs[t]);
    Unheld(s, s.txs[t].user);
    assert Advance(s, t, a).Some? && Advance(s, t, a).value != s.txs[t];
    assert Step(s, a).txs[t] == Advance(s, t, a).value;
  }

  lemma MovesOn(s: State, t: TxId) returns (a: Action)
    requires t in s.txs && !Blocked(s, t) && Pending(s.txs[t]) == {}
    requires var x := s.txs[t]; !x.CreateInserted? && !x.ResetRevoking? && !x.RequestInserted? && !x.ChangeMarking?
    ensures !a.Logout? && !a.LogoutUser? && !a.Rollback? && a.tx == t && Step(s, a) != s
  {
    var x := s.txs[t];
    if x.CreateLocked? {
      var id := Fresh(s.sessions.Keys);
      a := InsertSession(t, id);
      assert Step(s, a).txs[t].CreateInserted?;
    } else if x.RequestMarking? {
      Unheld(s, x.user);
      var id := Fresh(s.tokens.Keys);
      a := InsertToken(t, id);
      assert Step(s, a).txs[t].RequestInserted?;
    } else {
      MovesPlainly(s, t);
      a := NextStatement(t, x);
    }
  }

  lemma MarksNext(s: State, t: TxId) returns (a: Action)
    requires t in s.txs && Tidy(s, s.txs[t]) && Pending(s.txs[t]) != {} && !Blocked(s, t)
    ensures a.MarkToken? && a.tx == t && t in Step(s, a).txs && Step(s, a).txs[t] != s.txs[t]
  {
    var k :| k in Pending(s.txs[t]) && !HeldByOther(s, t, k);
    TokenUnheld(s, t, k);
    a := MarkToken(t, k);
    assert k !in Pending(Step(s, a).txs[t]);
  }

  /**
   In every reachable state, for every kind of transaction: it can do nothing but roll back if and only
   if another transaction holds the lock that its next statement takes.
   */
  lemma StalledIffBlocked(r: State, t: TxId)
    requires Reachable(r) && t in r.txs
    ensures Stalled(r, t) <==> Blocked(r, t)
  {
    ReachableOrderly(r);
    if Blocked(r, t) {
      BlockedStalls(r, t);
    } else {
      var a := UnblockedMoves(r, t);
    }
  }

  lemma BlockedWaits(s: State, t: TxId)
    requires Orderly(s) && t in s.txs && Blocked(s, t)
    ensures exists t' :: t' in s.txs && Waits(s, t, t')
  {
    var x := s.txs[t];
    if Pending(x) != {} {
      var k :| k in Pending(x);
      assert HeldByOther(s, t, k);
      var t' :| t' in s.txs && t' != t && k in s.txs[t'].Rows();
      assert k in Pending(x) * s.txs[t'].Rows();
      assert Waits(s, t, t');
    } else {
      BlockedByUser(s, t);
    }
  }

  lemma BlockedByUser(s: State, t: TxId)
    requires t in s.txs && Blocked(s, t) && Pending(s.txs[t]) == {}
    ensures exists t' :: t' in s.txs && Waits(s, t, t')
  {
    var x := s.txs[t];
    var t' :| t' in s.txs && s.txs[t'].user == x.user && if x.ResetToken? then HoldsPassword(s.txs[t']) else Changes(s.txs[t']);
    ModesHeld(s.txs[t']);
    assert x.ResetToken? ==> NoKeyUpdate in Wanted(x);
    assert x.RequestMarking? ==> KeyShare in Wanted(x);
    assert Waits(s, t, t');
  }

  lemma AllBlockedIsKnot(s: State)
    requires Orderly(s) && s.txs.Keys != {} && forall t | t in s.txs :: Blocked(s, t)
    ensures Knot(s, s.txs.Keys)
  {
    forall t | t in s.txs.Keys ensures Stays(s, s.txs.Keys, t) {
      BlockedWaits(s, t);
      var t' :| t' in s.txs && Waits(s, t, t');
      assert t' in s.txs.Keys;
    }
  }

  /** In every reachable state with open transactions and no entangled pair, one of them can go on. */
  lemma SomeoneGoesOn(r: State)
    requires Reachable(r) && r.txs.Keys != {} && forall t, t' :: !Entangled(r, t, t')
    ensures exists t :: t in r.txs && !Stalled(r, t)
  {
    ReachableOrderly(r);
    if t :| t in r.txs && !Blocked(r, t) {
      StalledIffBlocked(r, t);
    } else {
      AllBlockedIsKnot(r);
      var t, t' := KnotIsEntangled(r, r.txs.Keys);
    }
  }

  // ----- an entangled pair never comes free

  lemma ChangeHolds(s: State, t: TxId, user: UserId)
    requires t in s.txs && s.txs[t].user == user && Changes(s.txs[t])
    ensures !UserFree(s, user, NoKeyUpdate) && !UserFree(s, user, KeyShare)
  {
    Unheld(s, user);
  }

  /** What a transaction of the pair is after a step of its own: of the same kind and user, with no row released. */
  ghost predicate Continued(x: Tx, y: Tx) {
    && x.user == y.user && x.Rows() <= y.Rows()
    && (x.ChangeMarking? ==> y.ChangeMarking?) && (x.RequestMarking? ==> y.RequestMarking?) && (x.ResetToken? ==> y == x)
  }

  lemma MarkerAdvances(s: State, t: TxId, a: Action, k: TokenId)
    requires t in s.txs && k in Pending(s.txs[t]) && !TokenFree(s, k) && Advance(s, t, a).Some?
    ensures Continued(s.txs[t], Advance(s, t, a).value) && k in Pending(Advance(s, t, a).value)
  {
    assert a.MarkToken? || a.InsertToken?;
    assert a.MarkToken? && a.token != k;
  }

  lemma BarredAdvances(s: State, t: TxId, a: Action)
    requires t in s.txs && (s.txs[t].ResetToken? || s.txs[t].RequestMarking?) && Advance(s, t, a).Some?
    requires !UserFree(s, s.txs[t].user, NoKeyUpdate) && !UserFree(s, s.txs[t].user, KeyShare)
    ensures Continued(s.txs[t], Advance(s, t, a).value)
  {
    assert a.MarkToken?;
  }

  /** A step of transaction `t` that is no commit or roll-back moves `t` alone. */
  lemma StatementMoves(s: State, t: TxId, a: Action)
    requires t in s.txs && !a.Logout? && !a.LogoutUser? && !a.Rollback? && !a.Commit? && a.tx == t
    ensures Step(s, a).txs == if Advance(s, t, a).Some? then s.txs[t := Advance(s, t, a).value] else s.txs
  {
  }

  lemma UnfinishedStays(s: State, t: TxId)
    requires t in s.txs && (Pending(s.txs[t]) != {} || s.txs[t].ResetToken? || s.txs[t].RequestMarking?)
    ensures Step(s, Commit(t)) == s
  {
  }

  /** The step of the one that marks: a token that the other holds stays pending. */
  lemma MarkerStays(s: State, t: TxId, t': TxId, a: Action, k: TokenId)
    requires t in s.txs && t' in s.txs && t != t' && k in Pending(s.txs[t]) && k in s.txs[t'].Rows()
    requires !a.Logout? && !a.LogoutUser? && !a.Rollback? && a.tx == t
    ensures var r := Step(s, a);
            r.txs.Keys == s.txs.Keys && r.txs[t'] == s.txs[t'] && Continued(s.txs[t], r.txs[t]) && k in Pending(r.txs[t])
  {
    assert !TokenFree(s, k);
    if a.Commit? {
      UnfinishedStays(s, t);
    } else {
      StatementMoves(s, t, a);
      if Advance(s, t, a).Some? { MarkerAdvances(s, t, a, k); }
    }
  }

  /** The step of a reset or request of whose user a change holds the row. */
  lemma BarredStays(s: State, t: TxId, t': TxId, a: Action)
    requires t in s.txs && t' in s.txs && t != t' && Changes(s.txs[t]) && s.txs[t].user == s.txs[t'].user
    requires s.txs[t'].ResetToken? || s.txs[t'].RequestMarking?
    requires !a.Logout? && !a.LogoutUser? && !a.Rollback? && a.tx == t'
    ensures var r := Step(s, a);
            r.txs.Keys == s.txs.Keys && r.txs[t] == s.txs[t] && Continued(s.txs[t'], r.txs[t'])
  {
    ChangeHolds(s, t, s.txs[t].user);
    if a.Commit? {
      UnfinishedStays(s, t');
    } else {
      StatementMoves(s, t', a);
      if Advance(s, t', a).Some? { BarredAdvances(s, t', a); }
    }
  }

  lemma HeldIsTangle(x: Tx, y: Tx, k: TokenId)
    requires x.ChangeMarking? && x.user == y.user && k in x.pending && k in y.Rows()
    requires y.ResetToken? || y.RequestMarking?
    ensures Tangle(x, y)
  {
    if y.RequestMarking? { assert k in x.pending * y.marked; }
  }

  lemma OwnStepOfChange(s: State, t: TxId, t': TxId, a: Action)
    requires Entangled(s, t, t') && s.txs[t].ChangeMarking? && !a.Logout? && !a.LogoutUser? && !a.Rollback? && (a.tx == t || a.tx == t')
    ensures Entangled(Step(s, a), t, t')
  {
    var x, y := s.txs[t], s.txs[t'];
    var k :| k in x.pending && k in y.Rows();
    if a.tx == t { MarkerStays(s, t, t', a, k); } else { BarredStays(s, t, t', a); }
    HeldIsTangle(Step(s, a).txs[t], Step(s, a).txs[t'], k);
  }

  lemma OwnStepOfRequests(s: State, t: TxId, t': TxId, a: Action)
    requires Entangled(s, t, t') && s.txs[t].RequestMarking? && !a.Logout? && !a.LogoutUser? && !a.Rollback? && (a.tx == t || a.tx == t')
    ensures Entangled(Step(s, a), t, t')
  {
    var j :| j in s.txs[t].pending * s.txs[t'].marked;
    var k :| k in s.txs[t'].pending * s.txs[t].marked;
    if a.tx == t { MarkerStays(s, t, t', a, j); } else { MarkerStays(s, t', t, a, k); }
    var x, y := Step(s, a).txs[t], Step(s, a).txs[t'];
    assert j in x.pending * y.marked && k in y.pending * x.marked;
  }

  lemma StepEntangled(s: State, t: TxId, t': TxId, a: Action)
    requires Entangled(s, t, t') && a != Rollback(t) && a != Rollback(t')
    ensures Entangled(Step(s, a), t, t')
  {
    if !a.Logout? && !a.LogoutUser? && (a.tx == t || a.tx == t') {
      if s.txs[t].ChangeMarking? { OwnStepOfChange(s, t, t', a); } else { OwnStepOfRequests(s, t, t', a); }
    } else {
      OtherStep(s, a, t);
      OtherStep(s, a, t');
    }
  }

  /** Whatever else happens, neither of an entangled pair ever commits until one of them is rolled back. */
  lemma {:induction false} EntangledForGood(s: State, t: TxId, t': TxId, actions: seq<Action>)
    requires Entangled(s, t, t') && Rollback(t) !in actions && Rollback(t') !in actions
    ensures Entangled(Play(s, actions), t, t')
  {
    if actions != [] {
      var init, last := actions[..|actions| - 1], actions[|actions| - 1];
      assert last in actions && forall a | a in init :: a in actions;
      EntangledForGood(s, t, t', init);
      StepEntangled(Play(s, init), t, t', last);
    }
  }

  // ----- each shape is reached

  lemma ChangeStarts(s: State)
    requires s.txs.Keys == {1} && s.users == map[0 := 0] && s.nextHash == 1 && s.txs[1].user == 0 && s.txs[1].Mode() == {}
    ensures Step(s, LockUser(2, 0, 7)) == s.(txs := s.txs[2 := ChangeLocked(0, 7)])
    ensures Step(Step(s, LockUser(2, 0, 7)), WriteChange(2)) == s.(txs := s.txs[2 := ChangeWritten(0, 7, 1)], nextHash := 2)
  {
    assert UserFree(s, 0, Update);
    var s1 := s.(txs := s.txs[2 := ChangeLocked(0, 7)]);
    assert Step(s, LockUser(2, 0, 7)) == s1;
    assert Step(s1, WriteChange(2)) == s1.(txs := s1.txs[2 := ChangeWritten(0, 7, 1)], nextHash := 2);
    assert s1.txs[2 := ChangeWritten(0, 7, 1)] == s.txs[2 := ChangeWritten(0, 7, 1)];
  }

  lemma ChangeGoesOn(s: State)
    requires 2 in s.txs && s.txs[2] == ChangeWritten(0, 7, 1) && s.sessions == map[]
    ensures Step(Step(s, RevokeForChange(2)), SnapTokens(2)) == s.(txs := s.txs[2 := ChangeMarking(0, 7, 1, {}, LiveTokens(s, 0), {})])
  {
    assert LiveSessions(s, 0) - {7} == {};
    var s1 := s.(txs := s.txs[2 := ChangeRevoking(0, 7, 1, {})]);
    assert Step(s, RevokeForChange(2)) == s1;
    assert LiveTokens(s1, 0) == LiveTokens(s, 0);
    var x := ChangeMarking(0, 7, 1, {}, LiveTokens(s, 0), {});
    assert s1.txs[2 := x] == s.txs[2 := x];
  }

  lemma ChangeRun(s: State, actions: seq<Action>)
    requires |actions| == 4 && s.txs.Keys == {1} && s.users == map[0 := 0] && s.nextHash == 1 && s.sessions == map[]
    requires s.txs[1].user == 0 && s.txs[1].Mode() == {}
    requires actions == [LockUser(2, 0, 7), WriteChange(2), RevokeForChange(2), SnapTokens(2)]
    ensures Play(s, actions) == s.(txs := s.txs[2 := ChangeMarking(0, 7, 1, {}, LiveTokens(s, 0), {})], nextHash := 2)
  {
    ChangeStarts(s);
    var s2 := s.(txs := s.txs[2 := ChangeWritten(0, 7, 1)], nextHash := 2);
    ChangeGoesOn(s2);
    assert LiveTokens(s2, 0) == LiveTokens(s, 0);
    PlayFour(s, actions);
    var x := ChangeMarking(0, 7, 1, {}, LiveTokens(s, 0), {});
    assert s2.txs[2 := x] == s.txs[2 := x];
  }

  lemma PlayFour(s: State, actions: seq<Action>)
    requires |actions| == 4
    ensures Play(s, actions) == Step(Step(Step(Step(s, actions[0]), actions[1]), actions[2]), actions[3])
  {
    assert actions[..3][..2] == actions[..2] && actions[..2][..1] == actions[..1] && actions[..1][..0] == [];
    assert Play(s, actions[..1]) == Step(s, actions[0]);
    assert Play(s, actions[..2]) == Step(Play(s, actions[..1]), actions[1]);
    assert Play(s, actions[..3]) == Step(Play(s, actions[..2]), actions[2]);
  }

  function Fold<S, A>(step: (S, A) -> S, s: S, actions: seq<A>): S {
    if actions == [] then s else step(Fold(step, s, actions[..|actions| - 1]), actions[|actions| - 1])
  }

  lemma {:induction false} FoldAppend<S, A>(step: (S, A) -> S, s: S, before: seq<A>, after: seq<A>)
    ensures Fold(step, s, before + after) == Fold(step, Fold(step, s, before), after)
  {
    if after == [] {
      assert before + after == before;
    } else {
      FoldAppend(step, s, before, after[..|after| - 1]);
      assert (before + after)[..|before + after| - 1] == before + after[..|after| - 1];
    }
  }

  lemma {:induction false} PlayIsFold(s: State, actions: seq<Action>)
    ensures Play(s, actions) == Fold(Step, s, actions)
  {
    if actions != [] { PlayIsFold(s, actions[..|actions| - 1]); }
  }

  lemma PlayAppend(s: State, before: seq<Action>, after: seq<Action>)
    ensures Play(s, before + after) == Play(Play(s, before), after)
  {
    PlayIsFold(s, before + after);
    PlayIsFold(s, before);
    PlayIsFold(Play(s, before), after);
    FoldAppend(Step, s, before, after);
  }

  /** The same change after the first steps of another transaction. */
  lemma ChangeAfter(s: State, before: seq<Action>, mid: State) returns (r: State)
    requires AtRest(s) && mid == Play(s, before)
    requires mid.txs.Keys == {1} && mid.users == map[0 := 0] && mid.nextHash == 1 && mid.sessions == map[]
    requires mid.txs[1].user == 0 && mid.txs[1].Mode() == {}
    ensures Reachable(r) && r.txs == mid.txs[2 := ChangeMarking(0, 7, 1, {}, LiveTokens(mid, 0), {})]
  {
    var change := [LockUser(2, 0, 7), WriteChange(2), RevokeForChange(2), SnapTokens(2)];
    ChangeRun(mid, change);
    PlayAppend(s, before, change);
    PlayIsReachable(s, before + change);
    r := Play(s, before + change);
  }

  lemma MarkStep(s: State, t: TxId, k: TokenId, pending: set<TokenId>, marked: set<TokenId>)
    requires t in s.txs && s.txs[t].RequestMarking? && k in s.txs[t].pending
    requires TokenFree(s, k) && k in LiveTokens(s, s.txs[t].user)
    requires pending == s.txs[t].pending - {k} && marked == s.txs[t].marked + {k}
    ensures Step(s, MarkToken(t, k)) == s.(txs := s.txs[t := RequestMarking(s.txs[t].user, pending, marked)])
  {
  }

  lemma StallsOn(r: State, t: TxId, t': TxId)
    requires Reachable(r) && Waits(r, t, t') && Pending(r.txs[t]) <= r.txs[t'].Rows()
    requires r.txs[t].ChangeMarking? || r.txs[t].RequestMarking? || r.txs[t].ResetToken?
    ensures Stalled(r, t)
  {
    WaitingKinds(r, t, t');
    forall k | k in Pending(r.txs[t]) ensures HeldByOther(r, t, k) { assert k in r.txs[t'].Rows(); }
    StalledIffBlocked(r, t);
  }

  /** Two entangled transactions that have nothing else to do. */
  lemma BothStall(r: State, t: TxId, t': TxId)
    requires Reachable(r) && Entangled(r, t, t')
    requires Pending(r.txs[t]) <= r.txs[t'].Rows() && Pending(r.txs[t']) <= r.txs[t].Rows()
    ensures Stalled(r, t) && Stalled(r, t')
  {
    ReachableOrderly(r);
    EntangledWait(r, t, t');
    StallsOn(r, t, t');
    StallsOn(r, t', t);
  }

  /** A change meets a reset that holds its token. */
  lemma ResetMeetsChange() returns (r: State)
    ensures Reachable(r) && 1 in r.txs && 2 in r.txs && r.txs[1].ResetToken? && r.txs[2].ChangeMarking?
    ensures Entangled(r, 2, 1) && Stalled(r, 1) && Stalled(r, 2)
  {
    var s := OneUser(map[0 := Token(0, false)]);
    var first := [LockToken(1, 0)];
    assert first[..0] == [] && Play(s, first) == Step(s, LockToken(1, 0));
    var mid := Play(s, first);
    assert mid.txs == map[1 := ResetToken(0, 0)];
    assert LiveTokens(mid, 0) == {0};
    r := ChangeAfter(s, first, mid);
    BothStall(r, 2, 1);
  }

  lemma RequestRun(s: State, actions: seq<Action>)
    requires s == OneUser(map[0 := Token(0, false)]) && actions == [SnapForRequest(1, 0), MarkToken(1, 0)]
    ensures Play(s, actions) == s.(txs := map[1 := RequestMarking(0, {}, {0})])
  {
    assert LiveTokens(s, 0) == {0};
    var s1 := s.(txs := map[1 := RequestMarking(0, {0}, {})]);
    assert Step(s, actions[0]) == s1 && LiveTokens(s1, 0) == {0} && TokenFree(s1, 0);
    MarkStep(s1, 1, 0, {}, {0});
    assert actions[..1][..0] == [] && Play(s, actions[..1]) == s1;
  }

  lemma MarkedIsTangled(r: State)
    requires Reachable(r) && r.txs == map[1 := RequestMarking(0, {}, {0}), 2 := ChangeMarking(0, 7, 1, {}, {0}, {})]
    ensures Entangled(r, 2, 1) && Stalled(r, 1) && Stalled(r, 2)
  {
    assert 0 in r.txs[2].pending * r.txs[1].marked;
    BothStall(r, 2, 1);
  }

  lemma RequestMid(s: State, mid: State)
    requires s == OneUser(map[0 := Token(0, false)]) && mid == s.(txs := map[1 := RequestMarking(0, {}, {0})])
    ensures mid.txs.Keys == {1} && mid.users == map[0 := 0] && mid.nextHash == 1 && mid.sessions == map[]
    ensures mid.txs[1] == RequestMarking(0, {}, {0}) && LiveTokens(mid, 0) == {0}
  {
    assert LiveTokens(mid, 0) == {0};
  }

  lemma RequestAfterwards(s: State, request: seq<Action>, mid: State) returns (r: State)
    requires AtRest(s) && mid == Play(s, request)
    requires mid.txs.Keys == {1} && mid.users == map[0 := 0] && mid.nextHash == 1 && mid.sessions == map[]
    requires mid.txs[1] == RequestMarking(0, {}, {0}) && LiveTokens(mid, 0) == {0}
    ensures Reachable(r) && r.txs == map[1 := RequestMarking(0, {}, {0}), 2 := ChangeMarking(0, 7, 1, {}, {0}, {})]
  {
    r := ChangeAfter(s, request, mid);
  }

  /** A change meets a request that has marked a token and still has to refer to the user. */
  lemma RequestMeetsChange() returns (r: State)
    ensures Reachable(r) && 1 in r.txs && 2 in r.txs && r.txs[1].RequestMarking? && r.txs[2].ChangeMarking?
    ensures Entangled(r, 2, 1) && Stalled(r, 1) && Stalled(r, 2)
  {
    var s := OneUser(map[0 := Token(0, false)]);
    var request := [SnapForRequest(1, 0), MarkToken(1, 0)];
    RequestRun(s, request);
    RequestMid(s, Play(s, request));
    r := RequestAfterwards(s, request, Play(s, request));
    MarkedIsTangled(r);
  }

  lemma CrossingRun(s: State, actions: seq<Action>)
    requires s == OneUser(map[0 := Token(0, false), 1 := Token(0, false)])
    requires actions == [SnapForRequest(1, 0), SnapForRequest(2, 0), MarkToken(1, 0), MarkToken(2, 1)]
    ensures Play(s, actions) == s.(txs := map[1 := RequestMarking(0, {1}, {0}), 2 := RequestMarking(0, {0}, {1})])
  {
    assert LiveTokens(s, 0) == {0, 1};
    var s1 := s.(txs := map[1 := RequestMarking(0, {0, 1}, {})]);
    assert Step(s, actions[0]) == s1 && LiveTokens(s1, 0) == {0, 1};
    var s2 := s.(txs := map[1 := RequestMarking(0, {0, 1}, {}), 2 := RequestMarking(0, {0, 1}, {})]);
    assert Step(s1, actions[1]) == s2;
    CrossingMarks(s2, s2.txs[1]);
    PlayFour(s, actions);
  }

  lemma BothTokensLive(s: State)
    requires s.tokens == map[0 := Token(0, false), 1 := Token(0, false)]
    ensures LiveTokens(s, 0) == {0, 1}
  {
  }

  lemma CrossingMarks(s: State, x: Tx)
    requires x == RequestMarking(0, {0, 1}, {}) && s.txs == map[1 := x, 2 := x] && s.tokens == map[0 := Token(0, false), 1 := Token(0, false)]
    ensures Step(Step(s, MarkToken(1, 0)), MarkToken(2, 1)) == s.(txs := map[1 := RequestMarking(0, {1}, {0}), 2 := RequestMarking(0, {0}, {1})])
  {
    BothTokensLive(s);
    MarkStep(s, 1, 0, {1}, {0});
    var s' := s.(txs := map[1 := RequestMarking(0, {1}, {0}), 2 := x]);
    assert Step(s, MarkToken(1, 0)) == s';
    SecondMark(s', RequestMarking(0, {1}, {0}), x);
  }

  lemma SecondMark(s: State, x: Tx, y: Tx)
    requires x == RequestMarking(0, {1}, {0}) && y == RequestMarking(0, {0, 1}, {}) && s.txs == map[1 := x, 2 := y]
    requires s.tokens == map[0 := Token(0, false), 1 := Token(0, false)]
    ensures Step(s, MarkToken(2, 1)) == s.(txs := map[1 := x, 2 := RequestMarking(0, {0}, {1})])
  {
    BothTokensLive(s);
    MarkStep(s, 2, 1, {0}, {1});
  }

  lemma CrossingEntangled(r: State)
    requires Reachable(r) && r.txs == map[1 := RequestMarking(0, {1}, {0}), 2 := RequestMarking(0, {0}, {1})]
    ensures Entangled(r, 1, 2) && Stalled(r, 1) && Stalled(r, 2)
  {
    assert 1 in r.txs[1].pending * r.txs[2].marked && 0 in r.txs[2].pending * r.txs[1].marked;
    BothStall(r, 1, 2);
  }

  /** Two requests mark two tokens in opposite orders. */
  lemma RequestsCross() returns (r: State)
    ensures Reachable(r) && 1 in r.txs && 2 in r.txs && r.txs[1].RequestMarking? && r.txs[2].RequestMarking?
    ensures Entangled(r, 1, 2) && Stalled(r, 1) && Stalled(r, 2)
  {
    var s := OneUser(map[0 := Token(0, false), 1 := Token(0, false)]);
    var actions := [SnapForRequest(1, 0), SnapForRequest(2, 0), MarkToken(1, 0), MarkToken(2, 1)];
    CrossingRun(s, actions);
    PlayIsReachable(s, actions);
    r := Play(s, actions);
    CrossingEntangled(r);
  }
}
