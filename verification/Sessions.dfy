/** Sessions inside transactions: the session repository, `SessionIssuer` and `RevokeAllUserSessions`. All of them
    join a transaction that is already open. */
module Sessions {
  import opened Basics
  import opened Domain
  import opened TrustTree
  import opened Tables
  import opened Transactions
  import opened History
  import opened Environment

  /** An access token names its user and the role it was signed with. */
  datatype AccessToken = AccessToken(userId: Id, role: Role)

  datatype TokenPair = TokenPair(access: AccessToken, refresh: string)

  // ---- the user repository ----

  /** The ids of a user's subtree; an unknown user has none. */
  method Descendants(env: Env, root: Id) returns (ids: seq<Id>, err: Option<Error>)
    requires Tree(env.View().users)
    modifies env.db
    ensures Kept(old(env.db.Conn()), env.db.Conn(), err.None?) && env.View() == old(env.View())
    ensures env.db.committed == old(env.db.committed)
    ensures err.None? ==> Stored(env.View().users, root) && multiset(ids) == multiset(Subtree(env.View().users, root))
    ensures err.Some? ==> err.value == Infrastructure || (err.value == NotFound && !Stored(env.View().users, root))
    ensures old(env.db.Conn().Faultless() && env.db.Conn().Ready()) ==> (err.Some? ==> err.value == NotFound)
  {
    ids := [];
    err := env.db.Query();
    if err.Some? {
      return;
    }
    ids := ListDescendants(env.View().users, root);
    SubtreeEmptyIffUnknown(env.View().users, root);
    if |ids| == 0 {
      assert multiset(ids) == multiset{};
      return [], Some(NotFound);
    }
    assert ids[0] in multiset(ids);
  }

  // ---- the session repository ----

  ghost predicate Loaded(tokens: seq<RefreshToken>, k: Id) {
    exists i :: 0 <= i < |tokens| && tokens[i].id == k
  }

  /** Distinct objects holding distinct stored rows. */
  ghost predicate LoadedFrom(tokens: seq<RefreshToken>, rows: map<Id, TokenRow>)
    reads tokens
  {
    && (forall i :: 0 <= i < |tokens| ==> tokens[i].id in rows && tokens[i].Row() == rows[tokens[i].id])
    && (forall i, j :: 0 <= i < j < |tokens| ==> tokens[i].id != tokens[j].id)
  }

  lemma LoadedOneMore(tokens: seq<RefreshToken>, t: RefreshToken, k: Id)
    ensures Loaded(tokens + [t], k) <==> Loaded(tokens, k) || k == t.id
  {
    var more := tokens + [t];
    if Loaded(tokens, k) {
      var i :| 0 <= i < |tokens| && tokens[i].id == k;
      assert more[i].id == k;
    }
    assert more[|tokens|] == t;
  }

  /** Rebuilds one object per row, in the order the rows arrive. */
  method Load(rows: map<Id, TokenRow>, ids: set<Id>) returns (tokens: seq<RefreshToken>)
    requires UniqueTokens(rows) && ids <= rows.Keys
    ensures LoadedFrom(tokens, rows) && (forall i :: 0 <= i < |tokens| ==> fresh(tokens[i]))
    ensures forall k :: Loaded(tokens, k) <==> k in ids
  {
    var remaining := ids;
    tokens := [];
    while remaining != {}
      invariant remaining <= ids
      invariant forall k :: Loaded(tokens, k) <==> k in ids - remaining
      invariant LoadedFrom(tokens, rows)
      invariant forall i :: 0 <= i < |tokens| ==> fresh(tokens[i])
    {
      var k :| k in remaining;
      var t := new RefreshToken.Reconstruct(rows[k]);
      forall j ensures Loaded(tokens + [t], j) <==> Loaded(tokens, j) || j == t.id { LoadedOneMore(tokens, t, j); }
      assert !Loaded(tokens, k);
      tokens := tokens + [t];
      remaining := remaining - {k};
    }
  }

  method FindActiveByUserIDs(env: Env, users: set<Id>, now: Time)
    returns (tokens: seq<RefreshToken>, err: Option<Error>)
    requires UniqueTokens(env.View().tokens)
    modifies env.db
    ensures Kept(old(env.db.Conn()), env.db.Conn(), err.None?) && env.View() == old(env.View())
    ensures env.db.committed == old(env.db.committed)
    ensures old(env.db.Conn().Faultless() && env.db.Conn().Ready()) ==> err.None?
    ensures err.Some? ==> err.value == Infrastructure
    ensures LoadedFrom(tokens, env.View().tokens) && (forall i :: 0 <= i < |tokens| ==> fresh(tokens[i]))
    ensures err.None? ==>
              forall k :: Loaded(tokens, k) <==> k in env.View().tokens && Active(env.View().tokens[k], users, now)
  {
    err := env.db.Query();
    if err.Some? {
      return [], err;
    }
    var rows := env.View().tokens;
    tokens := Load(rows, set k | k in rows && Active(rows[k], users, now));
  }

  predicate Holds(tokens: map<Id, TokenRow>, k: Id, hash: string) {
    k in tokens && tokens[k].tokenHash == hash
  }

  method FindTokenByID(env: Env, id: Id) returns (r: Result<RefreshToken, Error>)
    requires UniqueTokens(env.View().tokens)
    modifies env.db
    ensures Kept(old(env.db.Conn()), env.db.Conn(), r.Ok?) && env.View() == old(env.View())
    ensures env.db.committed == old(env.db.committed)
    ensures r.Ok? ==> fresh(r.value) && id in env.View().tokens && r.value.Row() == env.View().tokens[id]
    ensures r.Err? ==> r.error == Infrastructure || (r.error == NotFound && id !in env.View().tokens)
    ensures old(env.db.Conn().Faultless() && env.db.Conn().Ready()) ==> (r.Err? ==> r.error == NotFound)
  {
    var err := env.db.Query();
    if err.Some? {
      return Err(Infrastructure);
    }
    var rows := env.View().tokens;
    if id !in rows {
      return Err(NotFound);
    }
    var token := new RefreshToken.Reconstruct(rows[id]);
    return Ok(token);
  }

  method FindByTokenHash(env: Env, hash: string) returns (r: Result<RefreshToken, Error>)
    requires UniqueTokens(env.View().tokens)
    modifies env.db
    ensures Kept(old(env.db.Conn()), env.db.Conn(), r.Ok?) && env.View() == old(env.View())
    ensures env.db.committed == old(env.db.committed)
    ensures r.Ok? ==> fresh(r.value) && Holds(env.View().tokens, r.value.id, hash)
                      && env.View().tokens[r.value.id] == r.value.Row()
    ensures r.Err? ==> r.error == Infrastructure || (r.error == NotFound && !HashTaken(env.View().tokens, hash))
    ensures old(env.db.Conn().Faultless() && env.db.Conn().Ready()) ==>
              env.db.Conn().Faultless() && (r.Err? ==> r.error == NotFound)
    ensures old(env.db.Conn().Ready()) && (r.Err? ==> r.error == NotFound) ==> env.db.Conn().Ready()
  {
    var err := env.db.Query();
    if err.Some? {
      return Err(Infrastructure);
    }
    var rows := env.View().tokens;
    var matching := set k | k in rows && rows[k].tokenHash == hash;
    if matching == {} {
      assert forall k :: k in rows && rows[k].tokenHash == hash ==> k in matching;
      return Err(NotFound);
    }
    var k :| k in matching;
    var token := new RefreshToken.Reconstruct(rows[k]);
    return Ok(token);
  }

  function RowsOf(tokens: seq<RefreshToken>): (rows: seq<TokenRow>)
    reads tokens
    ensures |rows| == |tokens| && forall i :: 0 <= i < |tokens| ==> rows[i] == tokens[i].Row()
  {
    if tokens == [] then [] else RowsOf(tokens[..|tokens| - 1]) + [tokens[|tokens| - 1].Row()]
  }

  /** Every owner is stored and the whole batch is acceptable. */
  ghost predicate Savable(t: Tables, rows: seq<TokenRow>) {
    ForeignKeysHold(t) && (forall r :: r in rows ==> Stored(t.users, r.userId)) && UpsertTokens(t, rows).Some?
  }

  lemma OneRow(t: Tables, row: TokenRow)
    ensures UpsertTokens(t, [row]) == UpsertToken(t, row)
  {
    assert [row][..0] == [];
    assert UpsertTokens(t, [row][..0]) == Some(t);
  }

  /** The statement for one row of a batch. */
  function UpsertOf(row: TokenRow): Tables -> Option<Tables> { t => UpsertToken(t, row) }

  /** A batch: every statement is sent, whatever became of those before, and the first error is kept. */
  function BatchSteps(r: Rules<Tables>, c: Connection<Tables>, rows: seq<TokenRow>)
    : (Option<Error>, Connection<Tables>)
  {
    if rows == [] then (None, c)
    else
      var (first, d) := BatchSteps(r, c, rows[..|rows| - 1]);
      var (err, e) := StatementStep(r, d, UpsertOf(rows[|rows| - 1]));
      (if first.Some? then first else err, e)
  }

  /** The error reported is that of the first statement that failed, and the statements after it were still sent. */
  lemma {:induction false} FirstErrorIsReported(r: Rules<Tables>, c: Connection<Tables>, rows: seq<TokenRow>, i: nat)
    requires i < |rows| && BatchSteps(r, c, rows[..i]).0.None?
    requires StatementStep(r, BatchSteps(r, c, rows[..i]).1, UpsertOf(rows[i])).0.Some?
    ensures BatchSteps(r, c, rows).0 == StatementStep(r, BatchSteps(r, c, rows[..i]).1, UpsertOf(rows[i])).0
    ensures BatchSteps(r, c, rows).1
            == StatementStep(r, BatchSteps(r, c, rows[..|rows| - 1]).1, UpsertOf(rows[|rows| - 1])).1
    decreases |rows|
  {
    var front := rows[..|rows| - 1];
    if i < |front| {
      assert front[..i] == rows[..i];
      FirstErrorIsReported(r, c, front, i);
    }
  }

  /** One statement of the batch. */
  method ExecRow(env: Env, row: TokenRow) returns (err: Option<Error>)
    requires env.db.tx.Some? && env.db.rules == SchemaRules(env.cfg.deferForeignKeys)
    modifies env.db
    ensures Kept(old(env.db.Conn()), env.db.Conn(), err.None?) && env.db.committed == old(env.db.committed)
    ensures (err, env.db.Conn()) == StatementStep(env.db.rules, old(env.db.Conn()), UpsertOf(row))
    ensures err.None? ==> UpsertToken(old(env.View()), row) == Some(env.View())
    ensures err.Some? ==> err.value in {Infrastructure, Constraint}
    ensures old(env.db.Conn().Faultless() && env.db.Conn().Ready()) && Savable(old(env.View()), [row]) ==>
              err.None? && ForeignKeysHold(env.View()) && env.View().users == old(env.View()).users
  {
    OneRow(env.View(), row);
    if Savable(env.View(), [row]) {
      assert row in [row];
      OwnedTokenKeepsForeignKeys(env.View(), row);
    }
    err := env.db.Exec(UpsertOf(row));
  }

  /** Sends the batch: every statement is executed, the first error is reported. */
  method ExecBatch(env: Env, rows: seq<TokenRow>) returns (firstErr: Option<Error>)
    requires env.db.tx.Some? && env.db.rules == SchemaRules(env.cfg.deferForeignKeys)
    modifies env.db
    ensures Kept(old(env.db.Conn()), env.db.Conn(), firstErr.None?)
    ensures (firstErr, env.db.Conn()) == BatchSteps(env.db.rules, old(env.db.Conn()), rows)
    ensures firstErr.None? ==> UpsertTokens(old(env.View()), rows) == Some(env.View())
    ensures firstErr.Some? ==> firstErr.value in {Infrastructure, Constraint}
    ensures old(env.db.Conn().Faultless() && env.db.Conn().Ready()) && Savable(old(env.View()), rows) ==> firstErr.None?
  {
    firstErr := None;
    ghost var start := env.View();
    ghost var calm := env.db.Conn().Faultless() && env.db.Conn().Ready() && Savable(start, rows);
    assert rows[..0] == [];
    for i := 0 to |rows|
      invariant env.db.tx.Some? && env.db.committed == old(env.db.committed)
      invariant (firstErr, env.db.Conn()) == BatchSteps(env.db.rules, old(env.db.Conn()), rows[..i])
      invariant old(env.db.Conn().Faultless()) ==> env.db.Conn().Faultless()
      invariant firstErr.None? ==> UpsertTokens(start, rows[..i]) == Some(env.View())
      invariant firstErr.None? && old(env.db.Conn().Ready()) ==> env.db.Conn().Ready()
      invariant firstErr.Some? ==> firstErr.value in {Infrastructure, Constraint}
      invariant calm ==> firstErr.None? && ForeignKeysHold(env.View()) && env.View().users == start.users
    {
      assert rows[..i + 1][..i] == rows[..i] && rows[..i + 1][i] == rows[i];
      OneRow(env.View(), rows[i]);
      if calm {
        UpsertPrefix(start, rows, i + 1);
        assert rows[i] in rows && Savable(env.View(), [rows[i]]);
      }
      var err := ExecRow(env, rows[i]);
      if err.Some? && firstErr.None? {
        firstErr := err;
      }
    }
    assert rows[..|rows|] == rows;
  }

  method Save(env: Env, tokens: seq<RefreshToken>) returns (err: Option<Error>)
    requires env.db.tx.Some? && env.db.rules == SchemaRules(env.cfg.deferForeignKeys)
    modifies env.db
    ensures Kept(old(env.db.Conn()), env.db.Conn(), err.None?)
    ensures err.None? ==> UpsertTokens(old(env.View()), old(RowsOf(tokens))) == Some(env.View())
    ensures err.Some? ==> err.value in {Infrastructure, Constraint}
    ensures old(env.db.Conn().Faultless() && env.db.Conn().Ready()) && Savable(old(env.View()), old(RowsOf(tokens))) ==>
              err.None?
  {
    var params: seq<TokenRow> := [];
    for i := 0 to |tokens|
      invariant params == RowsOf(tokens)[..i]
    {
      params := params + [tokens[i].Row()];
    }
    assert params == RowsOf(tokens);
    err := ExecBatch(env, params);
  }

  // ---- RevokeAllUserSessions ----

  lemma NothingToRevoke(tokens: map<Id, TokenRow>, users: set<Id>, now: Time)
    requires forall k :: k in tokens ==> !Active(tokens[k], users, now)
    ensures RevokeActive(tokens, users, now) == tokens
  {
  }

  ghost predicate RevokedCopies(tokens: seq<RefreshToken>, rows: map<Id, TokenRow>, now: Time)
    reads tokens
  {
    forall i :: 0 <= i < |tokens| ==>
      tokens[i].id in rows && tokens[i].Row() == rows[tokens[i].id].(revokedAt := Some(now))
  }

  lemma UpdatesAreLoaded(tokens: seq<RefreshToken>, k: Id)
    ensures Updates(RowsOf(tokens), k) <==> Loaded(tokens, k)
  {
    var rows := RowsOf(tokens);
    if Loaded(tokens, k) {
      var i :| 0 <= i < |tokens| && tokens[i].id == k;
      assert rows[i] in rows && rows[i].id == k;
    }
  }

  /** Saving revoked copies of exactly the active rows is the revocation of the active rows. */
  lemma SavingRevokesActive(t: Tables, tokens: seq<RefreshToken>, users: set<Id>, now: Time)
    requires RevokedCopies(tokens, t.tokens, now)
    requires forall k :: Loaded(tokens, k) <==> k in t.tokens && Active(t.tokens[k], users, now)
    ensures UpsertTokens(t, RowsOf(tokens)) == Some(t.(tokens := RevokeActive(t.tokens, users, now)))
  {
    var rows := RowsOf(tokens);
    RowsUpdateInPlace(t, rows, now);
    var after := UpsertTokens(t, rows).value;
    forall k | k in t.tokens ensures after.tokens[k] == RevokeActive(t.tokens, users, now)[k] {
      UpdatesAreLoaded(tokens, k);
    }
    assert after.tokens == RevokeActive(t.tokens, users, now);
  }

  lemma RevokedCopiesOwned(t: Tables, tokens: seq<RefreshToken>, now: Time)
    requires ForeignKeysHold(t) && RevokedCopies(tokens, t.tokens, now)
    ensures forall r :: r in RowsOf(tokens) ==> Stored(t.users, r.userId)
  {
  }

  /** The loop over the loaded sessions. They come unrevoked from the query, so the error for a token that is
      already revoked never arises. */
  method RevokeEach(tokens: seq<RefreshToken>, ghost rows: map<Id, TokenRow>, now: Time) returns (err: Option<Error>)
    requires LoadedFrom(tokens, rows)
    requires forall i :: 0 <= i < |tokens| ==> !rows[tokens[i].id].IsRevoked()
    modifies tokens
    ensures err.None? && RevokedCopies(tokens, rows, now)
  {
    for i := 0 to |tokens|
      invariant forall j :: 0 <= j < i ==> tokens[j].Row() == rows[tokens[j].id].(revokedAt := Some(now))
      invariant forall j :: i <= j < |tokens| ==> tokens[j].Row() == rows[tokens[j].id]
    {
      var revoked := tokens[i].Revoke(now);
      if revoked.Some? {
        return revoked;
      }
    }
    return None;
  }

  /** Saves one token that was loaded and revoked since. */
  method SaveRevoked(env: Env, token: RefreshToken, now: Time) returns (err: Option<Error>)
    requires env.Sound() && env.db.tx.Some? && ForeignKeysHold(env.View()) && UniqueTokens(env.View().tokens)
    requires token.id in env.View().tokens && token.Row() == env.View().tokens[token.id].(revokedAt := Some(now))
    modifies env.db
    ensures Kept(old(env.db.Conn()), env.db.Conn(), err.None?)
    ensures err.None? ==> env.View() == old(env.View()).(tokens := old(env.View()).tokens[token.id := token.Row()])
    ensures err.None? ==> env.rt.Fresh(env.View())
    ensures err.Some? ==> err.value in {Infrastructure, Constraint}
    ensures old(env.db.Conn().Faultless() && env.db.Conn().Ready()) ==> err.None?
  {
    ghost var t, row := env.View(), token.Row();
    env.rt.SameHashesStored(env.rt.idsDrawn, env.rt.tokensDrawn, t, t.tokens[token.id := row]);
    OneRow(t, row);
    assert RowsOf([token]) == [row];
    err := Save(env, [token]);
  }

  /** The loop over the tokens found and the batch that saves them. */
  method RevokeLoaded(env: Env, tokens: seq<RefreshToken>, ghost users: set<Id>, now: Time)
    returns (err: Option<Error>)
    requires env.db.tx.Some? && env.db.rules == SchemaRules(env.cfg.deferForeignKeys)
    requires LoadedFrom(tokens, env.View().tokens)
    requires forall k :: Loaded(tokens, k) <==> k in env.View().tokens && Active(env.View().tokens[k], users, now)
    modifies env.db, tokens
    ensures Kept(old(env.db.Conn()), env.db.Conn(), err.None?)
    ensures err.None? ==> env.View() == old(env.View()).(tokens := RevokeActive(old(env.View()).tokens, users, now))
    ensures err.Some? ==> err.value in {Infrastructure, Constraint}
    ensures old(env.db.Conn().Faultless() && env.db.Conn().Ready()) && ForeignKeysHold(old(env.View())) ==> err.None?
  {
    ghost var t := env.View();
    forall i | 0 <= i < |tokens| ensures !t.tokens[tokens[i].id].IsRevoked() { assert Loaded(tokens, tokens[i].id); }
    err := RevokeEach(tokens, t.tokens, now);
    if err.Some? {
      return;
    }
    SavingRevokesActive(t, tokens, users, now);
    if ForeignKeysHold(t) { RevokedCopiesOwned(t, tokens, now); }
    err := Save(env, tokens);
  }

  /** The transaction body: find, revoke each, save the batch. */
  method RevokeInTx(env: Env, users: set<Id>, now: Time) returns (err: Option<Error>)
    requires env.db.tx.Some? && env.db.rules == SchemaRules(env.cfg.deferForeignKeys) && UniqueTokens(env.View().tokens)
    modifies env.db
    ensures Kept(old(env.db.Conn()), env.db.Conn(), err.None?)
    ensures err.None? ==> env.View() == old(env.View()).(tokens := RevokeActive(old(env.View()).tokens, users, now))
    ensures err.Some? ==> err.value in {Infrastructure, Constraint}
    ensures old(env.db.Conn().Faultless() && env.db.Conn().Ready()) && ForeignKeysHold(old(env.View())) ==> err.None?
  {
    var tokens, findErr := FindActiveByUserIDs(env, users, now);
    if findErr.Some? {
      return findErr;
    }
    ghost var t := env.View();
    if |tokens| == 0 {
      assert forall k :: !Loaded(tokens, k);
      NothingToRevoke(t.tokens, users, now);
      return None;
    }
    err := RevokeLoaded(env, tokens, users, now);
  }

  lemma RevocationKeepsForeignKeys(t: Tables, users: set<Id>, now: Time)
    requires ForeignKeysHold(t)
    ensures ForeignKeysHold(t.(tokens := RevokeActive(t.tokens, users, now)))
  {
  }

  /** The end of `RunInTransaction` for a body that returned `err`, as far as a caller can tell. */
  method Leave(env: Env, began: bool, err: Option<Error>) returns (result: Option<Error>)
    requires env.db.rules == SchemaRules(env.cfg.deferForeignKeys) && (began ==> env.db.tx.Some?)
    modifies env.db
    ensures !began ==> result == err && env.db.Conn() == old(env.db.Conn())
    ensures began ==> env.db.tx.None?
    ensures began ==> env.db.committed == if result.None? then old(env.View()) else old(env.db.committed)
    ensures err.Some? ==> result == err
    ensures result.Some? ==> result == err || result.value in {Infrastructure, Constraint}
    ensures old(env.db.Conn().Faultless()) ==> env.db.Conn().Faultless()
    ensures old(env.db.Conn().Faultless() && env.db.Conn().Ready()) && ForeignKeysHold(old(env.View())) ==>
              result == err
  {
    var o := env.db.Leave(began, Returned(err));
    result := o.Found();
  }

  /** `RunInTransaction` around the revocation. */
  method RevokeUsers(env: Env, users: set<Id>, now: Time) returns (err: Option<Error>)
    requires env.db.rules == SchemaRules(env.cfg.deferForeignKeys) && UniqueTokens(env.View().tokens)
    modifies env.db
    ensures Kept(old(env.db.Conn()), env.db.Conn(), err.None?)
    ensures err.None? ==> env.View() == old(env.View()).(tokens := RevokeActive(old(env.View()).tokens, users, now))
    ensures err.Some? ==> err.value in {Infrastructure, Constraint}
    ensures old(env.db.Conn().Faultless() && env.db.Conn().Ready()) && ForeignKeysHold(old(env.View())) ==> err.None?
  {
    ghost var before := env.View();
    var began, beginErr := env.db.Enter();
    if beginErr.Some? {
      return beginErr;
    }
    var inner := RevokeInTx(env, users, now);
    if ForeignKeysHold(before) { RevocationKeepsForeignKeys(before, users, now); }
    err := Leave(env, began, inner);
  }

  method RevokeAllUserSessions(env: Env, userIds: seq<Id>) returns (err: Option<Error>, ghost now: Time)
    requires env.Sound() && UniqueTokens(env.View().tokens)
    modifies env.db, env.rt
    ensures Kept(old(env.db.Conn()), env.db.Conn(), err.None?)
    ensures now == env.rt.clockAt(old(env.rt.ticks)) && env.rt.ticks >= old(env.rt.ticks)
    ensures env.rt.idsDrawn == old(env.rt.idsDrawn) && env.rt.tokensDrawn == old(env.rt.tokensDrawn)
    ensures env.rt.failures == old(env.rt.failures)
    ensures err.None? ==>
              && env.View() == old(env.View()).(tokens := RevokeActive(old(env.View()).tokens, IdSet(userIds), now))
              && env.rt.Fresh(env.View())
    ensures err.Some? ==> err.value in {Infrastructure, Constraint}
    ensures old(env.Calm()) && ForeignKeysHold(old(env.View())) ==> err.None?
  {
    now := env.rt.clockAt(env.rt.ticks);
    env.rt.SameHashesStored(env.rt.idsDrawn, env.rt.tokensDrawn, env.View(),
                            RevokeActive(env.View().tokens, IdSet(userIds), now));
    if |userIds| == 0 {
      NothingToRevoke(env.View().tokens, IdSet(userIds), now);
      return None, now;
    }
    var at := env.rt.Now();
    err := RevokeUsers(env, IdSet(userIds), at);
  }

  // ---- SessionIssuer ----

  /** What a step that draws from the generators leaves of the runtime. */
  twostate predicate OnlyDraws(rt: Runtime)
    reads rt
  {
    && rt.ticks >= old(rt.ticks) && rt.idsDrawn >= old(rt.idsDrawn) && rt.tokensDrawn >= old(rt.tokensDrawn)
    && (old(rt.Faultless()) ==> rt.Faultless())
  }

  /** The access token is for a stored user and names the role stored for it. */
  predicate AccessFits(users: seq<User>, id: Id, access: AccessToken) {
    access.userId == id && exists i :: 0 <= i < |users| && users[i].id == id && users[i].role == access.role
  }

  /** In the chain of trust it makes an admin of exactly the root and those the root invited. */
  lemma AccessByPlace(users: seq<User>, id: Id, access: AccessToken, i: nat)
    requires TrustTree.TrustTree(users) && AccessFits(users, id, access) && i < |users| && users[i].id == access.userId
    ensures id == access.userId
    ensures access.role == if i == 0 || users[i].invitedBy == Some(users[0].id) then Admin else Member
  {
    RolesByPlace(users, i);
  }

  method IssueAccess(env: Env, userId: Id) returns (r: Result<AccessToken, Error>)
    modifies env.db, env.rt
    ensures Kept(old(env.db.Conn()), env.db.Conn(), r.Ok?) && env.View() == old(env.View())
    ensures env.db.committed == old(env.db.committed)
    ensures OnlyDraws(env.rt) && env.rt.idsDrawn == old(env.rt.idsDrawn)
    ensures env.rt.tokensDrawn == old(env.rt.tokensDrawn)
    ensures r.Ok? ==> AccessFits(env.View().users, userId, r.value)
    ensures r.Err? ==> r.error == if Stored(env.View().users, userId) then Infrastructure else r.error
    ensures old(env.Calm()) && Stored(env.View().users, userId) ==> r.Ok?
  {
    var err := env.db.Query();
    if err.Some? {
      return Err(Infrastructure);
    }
    var u := FindUser(env.View().users, userId);
    if u.None? {
      return Err(NotFound);
    }
    var failed := env.rt.Failure();
    if failed {
      return Err(Infrastructure);
    }
    return Ok(AccessToken(userId, u.value.role));
  }

  /** Draws a raw token and an identifier and builds the session object. */
  method NewSessionToken(env: Env, userId: Id, device: string, address: string, now: Time)
    returns (token: Result<RefreshToken, Error>, raw: string, ghost s: NewSession)
    requires env.Sound()
    modifies env.rt
    ensures OnlyDraws(env.rt) && env.rt.ticks == old(env.rt.ticks)
    ensures token.Ok? ==>
              && fresh(token.value) && token.value.Row() == SessionRow(env.cfg, s, userId, now)
              && FreshSession(env.View(), s) && s.device == device && s.address == address && env.rt.hash(raw) == s.hash
              && env.rt.Fresh(env.View().(tokens := env.View().tokens[s.id := token.value.Row()]))
    ensures token.Err? ==>
              token.error == Infrastructure || (token.error == InvalidArgument && (userId == NIL || address == ""))
    ensures old(env.rt.Faultless()) ==>
              if userId != NIL && address != "" then token.Ok? else token == Err(InvalidArgument)
  {
    raw, s := "", NewSession(0, "", device, address);
    var pair := env.rt.GenerateToken();
    if pair.Err? {
      return Err(pair.error), raw, s;
    }
    raw := pair.value.0;
    var id := env.rt.NewID();
    s := NewSession(id, pair.value.1, device, address);
    token := RefreshToken.New(id, userId, pair.value.1, device, address, env.cfg.refreshTtl, now);
    if token.Ok? {
      env.rt.SessionStored(old(env.rt.idsDrawn), old(env.rt.tokensDrawn), env.View(), token.value.Row());
    }
  }

  /** The body of the transaction in `Issue`: the token is saved first, then the access token signed. */
  method SaveAndSign(env: Env, token: RefreshToken) returns (r: Result<AccessToken, Error>)
    requires env.db.tx.Some? && env.db.rules == SchemaRules(env.cfg.deferForeignKeys)
    modifies env.db, env.rt
    ensures Kept(old(env.db.Conn()), env.db.Conn(), r.Ok?) && OnlyDraws(env.rt)
    ensures env.rt.idsDrawn == old(env.rt.idsDrawn) && env.rt.tokensDrawn == old(env.rt.tokensDrawn)
    ensures r.Ok? ==> UpsertToken(old(env.View()), old(token.Row())) == Some(env.View())
                      && AccessFits(env.View().users, token.userId, r.value)
    ensures r.Err? && Stored(old(env.View()).users, token.userId) ==> r.error in {Infrastructure, Constraint}
    ensures old(env.Calm()) && Savable(old(env.View()), [old(token.Row())]) ==> r.Ok?
  {
    ghost var before, row := env.View(), token.Row();
    OneRow(before, row);
    assert RowsOf([token]) == [row];
    var err := Save(env, [token]);
    if err.Some? {
      return Err(err.value);
    }
    r := IssueAccess(env, token.userId);
  }

  method Issue(env: Env, userId: Id, device: string, address: string, now: Time)
    returns (r: Result<TokenPair, Error>, ghost s: NewSession)
    requires env.Sound() && env.db.tx.Some?
    modifies env.db, env.rt
    ensures Kept(old(env.db.Conn()), env.db.Conn(), r.Ok?) && OnlyDraws(env.rt)
    ensures r.Ok? ==>
              && FreshSession(old(env.View()), s) && s.device == device && s.address == address
              && env.View() == old(env.View()).(tokens :=
                   old(env.View()).tokens[s.id := SessionRow(env.cfg, s, userId, now)])
              && env.rt.Fresh(env.View())
              && AccessFits(env.View().users, userId, r.value.access)
              && env.rt.hash(r.value.refresh) == s.hash
    ensures r.Err? && Stored(old(env.View()).users, userId) ==>
              r.error in {Infrastructure, Constraint} ||
              (r.error == InvalidArgument && (userId == NIL || address == ""))
    ensures old(env.Calm()) && Stored(old(env.View()).users, userId) && (userId == NIL || address == "") ==>
              r == Err(InvalidArgument)
    ensures old(env.Calm()) && ForeignKeysHold(old(env.View())) && userId != NIL && address != "" ==>
              Stored(old(env.View()).users, userId) ==> r.Ok?
  {
    var token, raw;
    token, raw, s := NewSessionToken(env, userId, device, address, now);
    if token.Err? {
      return Err(token.error), s;
    }
    OneRow(env.View(), token.value.Row());
    var began, beginErr := env.db.Enter();
    if beginErr.Some? {
      return Err(Infrastructure), s;
    }
    var access := SaveAndSign(env, token.value);
    var err := Leave(env, began, if access.Err? then Some(access.error) else None);
    if err.Some? {
      return Err(err.value), s;
    }
    return Ok(TokenPair(access.value, raw)), s;
  }

  lemma RotationSaved(t: Tables, spent: Id, newId: Id, newHash: string, now: Time)
    requires spent in t.tokens && t.tokens[spent].id == spent && newId !in t.tokens && !HashTaken(t.tokens, newHash)
    ensures var after := AfterRotation(t.tokens, spent, newId, newHash, now);
            UpsertTokens(t, [after[spent], after[newId]]) == Some(t.(tokens := after))
  {
    var after := AfterRotation(t.tokens, spent, newId, newHash, now);
    var rows := [after[spent], after[newId]];
    assert rows[..1] == [after[spent]];
    OneRow(t, after[spent]);
  }

  /** The body of the transaction in `Rotate`: the access token is signed first, then both tokens saved. */
  method SignAndSave(env: Env, spent: RefreshToken, successor: RefreshToken) returns (r: Result<AccessToken, Error>)
    requires env.db.tx.Some? && env.db.rules == SchemaRules(env.cfg.deferForeignKeys)
    modifies env.db, env.rt
    ensures Kept(old(env.db.Conn()), env.db.Conn(), r.Ok?) && OnlyDraws(env.rt)
    ensures env.rt.idsDrawn == old(env.rt.idsDrawn) && env.rt.tokensDrawn == old(env.rt.tokensDrawn)
    ensures r.Ok? ==> UpsertTokens(old(env.View()), [old(spent.Row()), old(successor.Row())]) == Some(env.View())
                      && AccessFits(old(env.View()).users, spent.userId, r.value)
    ensures r.Err? && Stored(old(env.View()).users, spent.userId) ==> r.error in {Infrastructure, Constraint}
    ensures old(env.Calm()) && Savable(old(env.View()), [old(spent.Row()), old(successor.Row())]) ==> r.Ok?
  {
    ghost var before, rows := env.View(), [spent.Row(), successor.Row()];
    r := IssueAccess(env, spent.userId);
    if r.Err? {
      return;
    }
    assert RowsOf([spent, successor]) == rows;
    var err := Save(env, [spent, successor]);
    if err.Some? {
      return Err(err.value);
    }
  }

  /** Draws the successor of a token and revokes the token, both still unsaved. */
  method DrawSuccessor(env: Env, spent: RefreshToken, now: Time)
    returns (successor: Result<RefreshToken, Error>, raw: string)
    requires env.Sound()
    requires spent.id in env.View().tokens && env.View().tokens[spent.id] == spent.Row() && spent.revokedAt.None?
    modifies env.rt, spent
    ensures OnlyDraws(env.rt) && env.rt.ticks == old(env.rt.ticks)
    ensures successor.Ok? ==>
              var row, t := successor.value.Row(), env.View();
              && fresh(successor.value) && row.id != NIL && row.tokenHash != "" && row.tokenHash == env.rt.hash(raw)
              && row.id !in t.tokens && !HashTaken(t.tokens, row.tokenHash)
              && spent.Row() == AfterRotation(t.tokens, spent.id, row.id, row.tokenHash, now)[spent.id]
              && row == AfterRotation(t.tokens, spent.id, row.id, row.tokenHash, now)[row.id]
              && env.rt.Fresh(t.(tokens := AfterRotation(t.tokens, spent.id, row.id, row.tokenHash, now)))
    ensures successor.Err? ==> successor.error == Infrastructure
    ensures old(env.rt.Faultless()) ==> successor.Ok?
  {
    raw := "";
    var pair := env.rt.GenerateToken();
    if pair.Err? {
      return Err(pair.error), raw;
    }
    raw := pair.value.0;
    var id := env.rt.NewID();
    successor := spent.Rotate(id, pair.value.1, now);
    if successor.Err? {
      return;
    }
    var revoked := spent.Revoke(now);
    match revoked {
      case Some(e) => return Err(e), raw;
      case None =>
    }
    env.rt.RotationStored(old(env.rt.idsDrawn), old(env.rt.tokensDrawn), env.View(), spent.Row(),
      successor.value.Row());
  }

  method Rotate(env: Env, spent: RefreshToken, now: Time)
    returns (r: Result<TokenPair, Error>, ghost newId: Id, ghost newHash: string)
    requires env.Sound() && env.db.tx.Some?
    requires spent.id in env.View().tokens && env.View().tokens[spent.id] == spent.Row() && spent.revokedAt.None?
    modifies env.db, env.rt, spent
    ensures Kept(old(env.db.Conn()), env.db.Conn(), r.Ok?) && OnlyDraws(env.rt)
    ensures r.Ok? ==>
              && newId != NIL && newHash != "" && newId !in old(env.View()).tokens
              && !HashTaken(old(env.View()).tokens, newHash)
              && env.View() == old(env.View()).(tokens :=
                   AfterRotation(old(env.View()).tokens, spent.id, newId, newHash, now))
              && env.rt.Fresh(env.View())
              && AccessFits(env.View().users, spent.userId, r.value.access)
              && env.rt.hash(r.value.refresh) == newHash
    ensures r.Err? && Stored(old(env.View()).users, spent.userId) ==> r.error in {Infrastructure, Constraint}
    ensures old(env.Calm()) && ForeignKeysHold(old(env.View())) ==> r.Ok?
  {
    newId, newHash := 0, "";
    var successor, raw := DrawSuccessor(env, spent, now);
    if successor.Err? {
      return Err(successor.error), newId, newHash;
    }
    newId, newHash := successor.value.id, successor.value.tokenHash;
    RotationSaved(env.View(), spent.id, newId, newHash, now);
    var began, beginErr := env.db.Enter();
    if beginErr.Some? {
      return Err(Infrastructure), newId, newHash;
    }
    var access := SignAndSave(env, spent, successor.value);
    var err := Leave(env, began, if access.Err? then Some(access.error) else None);
    if err.Some? {
      return Err(err.value), newId, newHash;
    }
    return Ok(TokenPair(access.value, raw)), newId, newHash;
  }
}
