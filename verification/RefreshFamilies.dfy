/** Refresh-token rotation with reuse detection (api/routers/auth.py). A family is the chain of
    tokens that grows from one login. Token and family ids are fresh when issued; each handler
    is one atomic step. */
module RefreshFamilies {
  import opened Common

  type Token = nat
  type Family = nat
  type User = nat

  datatype Row = Row(user: User, family: Family, expiresAt: int, revoked: bool)

  datatype State = State(
    rows: map<Token, Row>,
    issued: map<Family, seq<Token>>)   // history: the tokens of each family in order of issue

  datatype Op =
    | Login(user: User, token: Token, family: Family, expiresAt: int)
    | Refresh(presented: Option<Token>, now: int, userFound: bool, next: Token, nextExpiresAt: int)
    | Logout(presented: Option<Token>)
    | ChangePassword(user: User)

  /** What a refresh request comes to. */
  datatype Verdict = Unknown | Replayed | Expired | Orphaned | Rotated

  function Init(): State { State(map[], map[]) }

  predicate Enabled(s: State, op: Op) {
    match op
    case Login(_, token, family, _) => token !in s.rows && family !in s.issued
    case Refresh(_, _, _, next, _) => next !in s.rows
    case _ => true
  }

  function Judge(s: State, presented: Option<Token>, now: int, userFound: bool): Verdict {
    if presented == None || presented.value !in s.rows then Unknown
    else if s.rows[presented.value].revoked then Replayed
    else if s.rows[presented.value].expiresAt <= now then Expired
    else if !userFound then Orphaned
    else Rotated
  }

  function RevokeFamily(rows: map<Token, Row>, f: Family): map<Token, Row> {
    map t | t in rows :: if rows[t].family == f then rows[t].(revoked := true) else rows[t]
  }

  function RevokeUser(rows: map<Token, Row>, u: User): map<Token, Row> {
    map t | t in rows :: if rows[t].user == u then rows[t].(revoked := true) else rows[t]
  }

  function Apply(s: State, op: Op): State
    requires Enabled(s, op)
  {
    match op
    case Login(user, token, family, expiresAt) =>
      State(s.rows[token := Row(user, family, expiresAt, false)], s.issued[family := [token]])
    case Refresh(presented, now, userFound, next, nextExpiresAt) => (
      match Judge(s, presented, now, userFound)
      case Unknown => s
      case Replayed => s.(rows := RevokeFamily(s.rows, s.rows[presented.value].family))
      case Expired => s.(rows := s.rows[presented.value := s.rows[presented.value].(revoked := true)])
      case Orphaned => s.(rows := RevokeFamily(s.rows, s.rows[presented.value].family))
      case Rotated =>
        var row := s.rows[presented.value];
        State(s.rows[presented.value := row.(revoked := true)][next := Row(row.user, row.family, nextExpiresAt, false)],
              s.issued[row.family := (if row.family in s.issued then s.issued[row.family] else []) + [next]]))
    case Logout(presented) =>
      if presented == None || presented.value !in s.rows then s
      else s.(rows := RevokeFamily(s.rows, s.rows[presented.value].family))
    case ChangePassword(user) => s.(rows := RevokeUser(s.rows, user))
  }

  ghost predicate Run(states: seq<State>, ops: seq<Op>) {
    && |states| == |ops| + 1
    && states[0] == Init()
    && forall i | 0 <= i < |ops| :: Enabled(states[i], ops[i]) && states[i + 1] == Apply(states[i], ops[i])
  }

  // ------------------------------------------------------------------ one live token a family

  function Newest(s: State, f: Family): Option<Token> {
    if f in s.issued && s.issued[f] != [] then Some(s.issued[f][|s.issued[f]| - 1]) else None
  }

  ghost predicate Recorded(s: State) {
    && (forall t | t in s.rows :: s.rows[t].family in s.issued && t in s.issued[s.rows[t].family])
    && (forall f, t | f in s.issued && t in s.issued[f] :: t in s.rows && s.rows[t].family == f)
    && (forall f | f in s.issued :: s.issued[f] != [] && NoDuplicates(s.issued[f]))
  }

  ghost predicate OneUserPerFamily(s: State) {
    forall t, u | t in s.rows && u in s.rows && s.rows[t].family == s.rows[u].family :: s.rows[t].user == s.rows[u].user
  }

  ghost predicate OnlyNewestLives(s: State) {
    forall t | t in s.rows && !s.rows[t].revoked :: Newest(s, s.rows[t].family) == Some(t)
  }

  ghost predicate Sound(s: State) { Recorded(s) && OneUserPerFamily(s) && OnlyNewestLives(s) }

  /** Nothing changes but that some rows become revoked. */
  ghost predicate OnlyRevokes(s: State, t: State) {
    && t.issued == s.issued && t.rows.Keys == s.rows.Keys
    && forall k | k in s.rows :: t.rows[k] == s.rows[k] || t.rows[k] == s.rows[k].(revoked := true)
  }

  predicate Issues(s: State, op: Op) {
    op.Login? || (op.Refresh? && Judge(s, op.presented, op.now, op.userFound).Rotated?)
  }

  lemma StepOnlyRevokes(s: State, op: Op)
    requires Enabled(s, op) && Sound(s) && !Issues(s, op)
    ensures OnlyRevokes(s, Apply(s, op))
  {
  }

  lemma RevokingKeepsRecords(s: State, t: State)
    requires Recorded(s) && OnlyRevokes(s, t)
    ensures Recorded(t)
  {
    assert forall k | k in s.rows :: t.rows[k].family == s.rows[k].family;
    hide NoDuplicates;
  }

  lemma RevokingKeepsOneLive(s: State, t: State)
    requires OneUserPerFamily(s) && OnlyNewestLives(s) && OnlyRevokes(s, t)
    ensures OneUserPerFamily(t) && OnlyNewestLives(t)
  {
    assert forall k | k in s.rows :: t.rows[k].family == s.rows[k].family && t.rows[k].user == s.rows[k].user;
    assert forall f :: Newest(t, f) == Newest(s, f);
  }

  /** One token joins a family whose other tokens are all revoked. */
  ghost predicate Appends(s: State, t: State, k: Token, f: Family) {
    && k !in s.rows && t.rows.Keys == s.rows.Keys + {k} && t.rows[k].family == f
    && t.issued == s.issued[f := (if f in s.issued then s.issued[f] else []) + [k]]
    && (forall u | u in s.rows :: t.rows[u].family == s.rows[u].family && t.rows[u].user == s.rows[u].user
                               && (s.rows[u].revoked ==> t.rows[u].revoked))
    && (forall u | u in s.rows && s.rows[u].family == f :: t.rows[u].revoked && t.rows[u].user == t.rows[k].user)
  }

  lemma StepAppends(s: State, op: Op)
    requires Enabled(s, op) && Sound(s) && Issues(s, op)
    ensures if op.Login? then Appends(s, Apply(s, op), op.token, op.family)
            else Appends(s, Apply(s, op), op.next, s.rows[op.presented.value].family)
  {
    if op.Login? {
      assert [] + [op.token] == [op.token];
    } else {
      var f := s.rows[op.presented.value].family;
      assert Newest(s, f) == Some(op.presented.value);
    }
  }

  lemma AppendedRowsAreIssued(s: State, t: State, k: Token, f: Family)
    requires Recorded(s) && Appends(s, t, k, f)
    ensures forall u | u in t.rows :: t.rows[u].family in t.issued && u in t.issued[t.rows[u].family]
  {
    hide NoDuplicates;
  }

  lemma AppendedIdsAreRows(s: State, t: State, k: Token, f: Family)
    requires Recorded(s) && Appends(s, t, k, f)
    ensures forall g, u | g in t.issued && u in t.issued[g] :: u in t.rows && t.rows[u].family == g
  {
    hide NoDuplicates;
  }

  lemma AppendedIdsAreDistinct(s: State, t: State, k: Token, f: Family)
    requires Recorded(s) && Appends(s, t, k, f)
    ensures forall g | g in t.issued :: t.issued[g] != [] && NoDuplicates(t.issued[g])
  {
    hide NoDuplicates;
    var was := if f in s.issued then s.issued[f] else [];
    assert k !in was;
    NothingTwice<Token>();
    FreshAtTheEnd(was, k);
  }

  lemma AppendingKeepsRecords(s: State, t: State, k: Token, f: Family)
    requires Recorded(s) && Appends(s, t, k, f)
    ensures Recorded(t)
  {
    hide NoDuplicates, Appends;
    AppendedRowsAreIssued(s, t, k, f);
    AppendedIdsAreRows(s, t, k, f);
    AppendedIdsAreDistinct(s, t, k, f);
  }

  lemma AppendingKeepsOneLive(s: State, t: State, k: Token, f: Family)
    requires OneUserPerFamily(s) && OnlyNewestLives(s) && Appends(s, t, k, f)
    ensures OneUserPerFamily(t) && OnlyNewestLives(t)
  {
    forall u | u in t.rows && !t.rows[u].revoked ensures Newest(t, t.rows[u].family) == Some(u) {
      if u != k {
        assert Newest(s, s.rows[u].family) == Some(u);
      }
    }
  }

  lemma StepKeepsSound(s: State, op: Op)
    requires Enabled(s, op) && Sound(s)
    ensures Sound(Apply(s, op))
  {
    hide Apply, Enabled, Recorded, OneUserPerFamily, OnlyNewestLives, Appends, OnlyRevokes;
    if Issues(s, op) {
      StepAppends(s, op);
      if op.Login? {
        AppendingKeepsRecords(s, Apply(s, op), op.token, op.family);
        AppendingKeepsOneLive(s, Apply(s, op), op.token, op.family);
      } else {
        AppendingKeepsRecords(s, Apply(s, op), op.next, s.rows[op.presented.value].family);
        AppendingKeepsOneLive(s, Apply(s, op), op.next, s.rows[op.presented.value].family);
      }
    } else {
      StepOnlyRevokes(s, op);
      RevokingKeepsRecords(s, Apply(s, op));
      RevokingKeepsOneLive(s, Apply(s, op));
    }
  }

  /** In every reachable state a family has at most one unrevoked token, the last one issued. */
  lemma {:induction false} OneLiveTokenPerFamily(states: seq<State>, ops: seq<Op>, n: nat)
    requires Run(states, ops) && n < |states|
    ensures Sound(states[n])
    ensures var rows := states[n].rows;
      forall t, u | t in rows && u in rows && rows[t].family == rows[u].family && !rows[t].revoked && !rows[u].revoked ::
        t == u && Newest(states[n], rows[t].family) == Some(t)
  {
    hide Apply, Enabled;
    if n > 0 {
      OneLiveTokenPerFamily(states, ops, n - 1);
      StepKeepsSound(states[n - 1], ops[n - 1]);
    }
  }

  // ------------------------------------------------------------------ chains

  /** A refresh that rotates family f. */
  predicate Rotates(s: State, op: Op, f: Family) {
    && op.Refresh?
    && Judge(s, op.presented, op.now, op.userFound) == Rotated
    && s.rows[op.presented.value].family == f
  }

  lemma StepKeepsRows(s: State, op: Op, t: Token)
    requires Enabled(s, op) && t in s.rows
    ensures t in Apply(s, op).rows
    ensures var was, row := s.rows[t], Apply(s, op).rows[t];
      && row.family == was.family && row.user == was.user && row.expiresAt == was.expiresAt
      && (was.revoked ==> row.revoked)
  {
  }

  lemma StepMovesNewest(s: State, op: Op, f: Family)
    requires Enabled(s, op) && Sound(s) && f in s.issued
    ensures f in Apply(s, op).issued
    ensures Rotates(s, op, f) ==> op.presented == Newest(s, f) && Newest(Apply(s, op), f) == Some(op.next)
    ensures !Rotates(s, op, f) ==> Apply(s, op).issued[f] == s.issued[f]
  {
  }

  lemma {:induction false} NewestStays(states: seq<State>, ops: seq<Op>, i: nat, j: nat, f: Family)
    requires Run(states, ops) && i <= j < |states| && f in states[i].issued
    requires forall k | i <= k < j :: !Rotates(states[k], ops[k], f)
    ensures f in states[j].issued && Newest(states[j], f) == Newest(states[i], f)
  {
    hide Apply, Enabled, Rotates;
    if i < j {
      NewestStays(states, ops, i, j - 1, f);
      OneLiveTokenPerFamily(states, ops, j - 1);
      StepMovesNewest(states[j - 1], ops[j - 1], f);
    }
  }

  /** The successful refreshes of a family form a chain: each presents the token the previous
      one issued. */
  lemma RotationsFormAChain(states: seq<State>, ops: seq<Op>, i: nat, j: nat, f: Family)
    requires Run(states, ops) && i < j < |ops|
    requires Rotates(states[i], ops[i], f) && Rotates(states[j], ops[j], f)
    requires forall k | i < k < j :: !Rotates(states[k], ops[k], f)
    ensures ops[j].presented == Some(ops[i].next)
  {
    hide Apply, Enabled;
    OneLiveTokenPerFamily(states, ops, i);
    OneLiveTokenPerFamily(states, ops, j);
    StepMovesNewest(states[i], ops[i], f);
    NewestStays(states, ops, i + 1, j, f);
    StepMovesNewest(states[j], ops[j], f);
  }

  /** A refresh rotates exactly when the token it presents is known, unrevoked and not yet
      expired, and its user still exists; with a token nobody issued it changes nothing. */
  lemma RotatesIff(s: State, op: Op, f: Family)
    requires Enabled(s, op) && op.Refresh?
    ensures op.presented.Some? && op.presented.value in s.rows ==>
      var row := s.rows[op.presented.value];
      (Rotates(s, op, f) <==> row.family == f && !row.revoked && op.now < row.expiresAt && op.userFound)
    ensures op.presented == None || op.presented.value !in s.rows ==> !Rotates(s, op, f) && Apply(s, op) == s
  {
  }

  /** The token a login or a rotation issues: unrevoked, for the same user, with the expiry it
      was given; a rotation revokes the token presented and touches no other. */
  lemma IssuedTokens(s: State, op: Op, f: Family)
    requires Enabled(s, op)
    ensures op.Login? ==> Apply(s, op).rows == s.rows[op.token := Row(op.user, op.family, op.expiresAt, false)]
    ensures Rotates(s, op, f) ==>
      var was := s.rows[op.presented.value];
      && op.next !in s.rows && op.next in Apply(s, op).rows
      && Apply(s, op).rows[op.next] == Row(was.user, f, op.nextExpiresAt, false)
      && Apply(s, op).rows[op.presented.value] == was.(revoked := true)
      && Apply(s, op).rows.Keys == s.rows.Keys + {op.next}
      && forall t | t in s.rows && t != op.presented.value :: Apply(s, op).rows[t] == s.rows[t]
  {
  }

  /** The step issues token t with this expiry. */
  predicate IssuesToken(s: State, op: Op, t: Token, expiresAt: int) {
    || (op.Login? && op.token == t && op.expiresAt == expiresAt)
    || (op.Refresh? && op.next == t && op.nextExpiresAt == expiresAt && Judge(s, op.presented, op.now, op.userFound).Rotated?)
  }

  lemma {:induction false} ExpiryNeverMoves(states: seq<State>, ops: seq<Op>, k: nat, n: nat, t: Token, expiresAt: int)
    requires Run(states, ops) && k < n < |states| && IssuesToken(states[k], ops[k], t, expiresAt)
    ensures t in states[n].rows && states[n].rows[t].expiresAt == expiresAt
  {
    if k < n - 1 {
      hide Apply, Enabled, IssuesToken;
      ExpiryNeverMoves(states, ops, k, n - 1, t, expiresAt);
      StepKeepsRows(states[n - 1], ops[n - 1], t);
    } else {
      assert states[n] == Apply(states[k], ops[k]);
    }
  }

  /** No token rotates at or after the expiry it was issued with. */
  lemma ExpiredTokensNeverRotate(states: seq<State>, ops: seq<Op>, k: nat, n: nat, t: Token, expiresAt: int, f: Family)
    requires Run(states, ops) && k < n < |ops| && IssuesToken(states[k], ops[k], t, expiresAt)
    requires ops[n].Refresh? && ops[n].presented == Some(t) && Rotates(states[n], ops[n], f)
    ensures ops[n].now < expiresAt
  {
    hide Apply, Enabled, IssuesToken, Rotates;
    ExpiryNeverMoves(states, ops, k, n, t, expiresAt);
    RotatesIff(states[n], ops[n], f);
  }

  // ------------------------------------------------------------------ dead families

  /** No token of the family is left unrevoked. */
  ghost predicate Dead(s: State, f: Family) {
    forall t | t in s.rows && s.rows[t].family == f :: s.rows[t].revoked
  }

  /** The steps that end a family: a replay, an expired presentation, a vanished user, a logout
      with any of its tokens, a password change of its user. */
  predicate Ends(s: State, op: Op, f: Family) {
    match op
    case Login(_, _, _, _) => false
    case Refresh(presented, now, userFound, _, _) =>
      var v := Judge(s, presented, now, userFound);
      (v.Replayed? || v.Expired? || v.Orphaned?) && s.rows[presented.value].family == f
    case Logout(presented) => presented.Some? && presented.value in s.rows && s.rows[presented.value].family == f
    case ChangePassword(user) => exists t | t in s.rows :: s.rows[t].family == f && s.rows[t].user == user
  }

  lemma RevokedByEnds(s: State, op: Op, f: Family)
    requires Enabled(s, op) && Sound(s) && f in s.issued && Ends(s, op, f)
    ensures Dead(Apply(s, op), f)
  {
    forall t | t in s.rows && s.rows[t].family == f ensures !s.rows[t].revoked ==> Newest(s, f) == Some(t) {
    }
  }

  lemma SurvivesOtherSteps(s: State, op: Op, f: Family, t: Token)
    requires Enabled(s, op) && Sound(s) && !Ends(s, op, f)
    requires t in s.rows && s.rows[t].family == f && !s.rows[t].revoked
    ensures !Dead(Apply(s, op), f)
  {
    var u := if Rotates(s, op, f) then op.next else t;
    assert u in Apply(s, op).rows && Apply(s, op).rows[u].family == f && !Apply(s, op).rows[u].revoked;
  }

  /** A live family dies in exactly those steps. */
  lemma FamilyDiesIff(s: State, op: Op, f: Family)
    requires Enabled(s, op) && Sound(s) && f in s.issued && !Dead(s, f)
    ensures Dead(Apply(s, op), f) <==> Ends(s, op, f)
  {
    var t :| t in s.rows && s.rows[t].family == f && !s.rows[t].revoked;
    hide Apply, Enabled, Sound, Ends, Dead;
    if Ends(s, op, f) {
      RevokedByEnds(s, op, f);
    } else {
      SurvivesOtherSteps(s, op, f, t);
    }
  }

  lemma DeadStaysDead(s: State, op: Op, f: Family)
    requires Enabled(s, op) && Sound(s) && f in s.issued && Dead(s, f)
    ensures Dead(Apply(s, op), f) && f in Apply(s, op).issued && !Rotates(s, op, f)
  {
  }

  lemma EndsMakesDead(s: State, op: Op, f: Family)
    requires Enabled(s, op) && Sound(s) && Ends(s, op, f)
    ensures f in s.issued && Dead(Apply(s, op), f) && f in Apply(s, op).issued
  {
    if f in s.issued {
      if Dead(s, f) {
        DeadStaysDead(s, op, f);
      } else {
        FamilyDiesIff(s, op, f);
      }
    }
  }

  lemma {:induction false} DeadForGood(states: seq<State>, ops: seq<Op>, i: nat, j: nat, f: Family)
    requires Run(states, ops) && i <= j < |states| && f in states[i].issued && Dead(states[i], f)
    ensures f in states[j].issued && Dead(states[j], f)
    ensures j < |ops| ==> !Rotates(states[j], ops[j], f)
  {
    hide Apply, Enabled, Rotates, Dead;
    if i < j {
      DeadForGood(states, ops, i, j - 1, f);
      OneLiveTokenPerFamily(states, ops, j - 1);
      DeadStaysDead(states[j - 1], ops[j - 1], f);
    }
    OneLiveTokenPerFamily(states, ops, j);
    if j < |ops| {
      DeadStaysDead(states[j], ops[j], f);
    }
  }

  /** After a replay, an expired presentation, a logout or a password change, no later refresh
      in the family succeeds. */
  lemma EndedFamilyNeverRotates(states: seq<State>, ops: seq<Op>, i: nat, j: nat, f: Family)
    requires Run(states, ops) && i < j < |ops| && Ends(states[i], ops[i], f)
    ensures !Rotates(states[j], ops[j], f)
  {
    hide Apply, Enabled, Rotates, Dead, Ends;
    OneLiveTokenPerFamily(states, ops, i);
    EndsMakesDead(states[i], ops[i], f);
    DeadForGood(states, ops, i + 1, j, f);
  }

  /** Presenting a token again after it rotated kills a family that has a live token: a client
      must never do it. */
  lemma SecondPresentationKillsLiveFamily(s: State, first: Op, again: Op, f: Family)
    requires Sound(s) && Enabled(s, first) && Rotates(s, first, f)
    requires again.Refresh? && again.presented == first.presented && Enabled(Apply(s, first), again)
    ensures !Dead(Apply(s, first), f) && Dead(Apply(Apply(s, first), again), f)
  {
    StepKeepsSound(s, first);
    var t := Apply(s, first);
    assert first.next in t.rows && !t.rows[first.next].revoked;
    EndsMakesDead(t, again, f);
  }

  // ------------------------------------------------------------------ the handlers

  class AuthServer {
    var rows: map<Token, Row>
    ghost var issued: map<Family, seq<Token>>

    ghost function View(): State
      reads this
    {
      State(rows, issued)
    }

    constructor ()
      ensures View() == Init()
    {
      rows, issued := map[], map[];
    }

    method HandleLogin(credentialsOk: bool, user: User, token: Token, family: Family, expiresAt: int) returns (ok: bool)
      requires token !in rows && family !in issued
      modifies this
      ensures ok == credentialsOk
      ensures View() == if ok then Apply(old(View()), Login(user, token, family, expiresAt)) else old(View())
    {
      if !credentialsOk {
        return false;
      }
      rows := rows[token := Row(user, family, expiresAt, false)];
      issued := issued[family := [token]];
      ok := true;
    }

    method RefreshSession(presented: Option<Token>, now: int, userFound: bool, next: Token, nextExpiresAt: int)
      returns (granted: Option<Token>)
      requires next !in rows
      modifies this
      ensures View() == Apply(old(View()), Refresh(presented, now, userFound, next, nextExpiresAt))
      ensures granted == if Judge(old(View()), presented, now, userFound).Rotated? then Some(next) else None
    {
      if presented == None || presented.value !in rows {
        return None;
      }
      var row := rows[presented.value];
      if row.revoked {
        RevokeTokenFamily(row.family);
        return None;
      }
      if row.expiresAt <= now {
        rows := rows[presented.value := row.(revoked := true)];
        return None;
      }
      if !userFound {
        RevokeTokenFamily(row.family);
        return None;
      }
      rows := rows[presented.value := row.(revoked := true)];
      rows := rows[next := Row(row.user, row.family, nextExpiresAt, false)];
      issued := issued[row.family := (if row.family in issued then issued[row.family] else []) + [next]];
      granted := Some(next);
    }

    method RevokeTokenFamily(f: Family)
      modifies this`rows
      ensures rows == RevokeFamily(old(rows), f)
    {
      rows := map t | t in rows :: if rows[t].family == f then rows[t].(revoked := true) else rows[t];
    }

    method HandleLogout(presented: Option<Token>)
      modifies this
      ensures View() == Apply(old(View()), Logout(presented))
    {
      if presented.Some? && presented.value in rows {
        RevokeTokenFamily(rows[presented.value].family);
      }
    }

    method HandleChangePassword(user: User, oldPasswordOk: bool) returns (ok: bool)
      modifies this
      ensures ok == oldPasswordOk
      ensures View() == if ok then Apply(old(View()), ChangePassword(user)) else old(View())
    {
      if !oldPasswordOk {
        return false;
      }
      rows := map t | t in rows :: if rows[t].user == user then rows[t].(revoked := true) else rows[t];
      ok := true;
    }
  }
}
