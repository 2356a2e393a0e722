/** The use cases as the handlers call them. Each runs its body in a transaction and records, in the ghost `log`, the
    event it committed; `Valid` says that the database always is the state of that log. Hence every property
    of runs (modules History and Runs) holds of the database after any sequence of calls, whatever fails. */
module Service {
  import opened Basics
  import opened Domain
  import opened TrustTree
  import opened Tables
  import opened Transactions
  import opened History
  import opened Environment
  import opened Sessions
  import opened InviteSteps
  import opened RegistrationSteps
  import opened LoginSteps
  import Runs

  lemma LogGrows(cfg: Config, log: seq<Event>, e: Event)
    requires Run(cfg, log) && Possible(cfg, State(cfg, log), e)
    ensures Run(cfg, log + [e]) && State(cfg, log + [e]) == Apply(cfg, State(cfg, log), e)
  {
    assert Before(log + [e]) == log;
  }

  /** The answer to a presented refresh token: an error, or none when it may be rotated. */
  ghost function RefreshAnswer(tokens: map<Id, TokenRow>, hash: string, now: Time): Option<Error> {
    if HashTaken(tokens, hash) then
      var k :| k in tokens && tokens[k].tokenHash == hash;
      if tokens[k].IsRevoked() then Some(RefreshTokenReuseDetected)
      else if tokens[k].IsValid(now) then None
      else Some(RefreshTokenInvalid)
    else Some(RefreshTokenNotFound)
  }

  /** The one row with the hash decides: revoked means reuse, whether or not it has expired as well. */
  lemma AnswerOf(tokens: map<Id, TokenRow>, hash: string, now: Time)
    requires UniqueTokens(tokens)
    ensures (forall k :: k in tokens ==> tokens[k].tokenHash != hash) ==>
              RefreshAnswer(tokens, hash, now) == Some(RefreshTokenNotFound)
    ensures forall k :: k in tokens && tokens[k].tokenHash == hash ==>
              RefreshAnswer(tokens, hash, now) ==
              if tokens[k].revokedAt.Some? then Some(RefreshTokenReuseDetected)
              else if now >= tokens[k].expiresAt then Some(RefreshTokenInvalid)
              else None
  {
  }

  function SessionAnswer(tokens: map<Id, TokenRow>, sessionId: Id, requester: Id): Option<Error> {
    if sessionId !in tokens then Some(SessionNotFound)
    else if tokens[sessionId].userId != requester then Some(SessionForbidden)
    else None
  }

  /** A session that does not exist is told apart from one of somebody else. */
  lemma SessionAnswerByRow(tokens: map<Id, TokenRow>, sessionId: Id, requester: Id)
    ensures SessionAnswer(tokens, sessionId, requester) == Some(SessionNotFound) <==> sessionId !in tokens
    ensures SessionAnswer(tokens, sessionId, requester) == Some(SessionForbidden) <==>
            sessionId in tokens && tokens[sessionId].userId != requester
    ensures SessionAnswer(tokens, sessionId, requester) == None <==>
            sessionId in tokens && tokens[sessionId].userId == requester
  {
  }

  lemma FirstUserInserted(cfg: Config, t: Tables, u: User)
    requires t.users == [] && u.id != NIL && u == User(u.id, Admin, None, u.createdAt)
    ensures Possible(cfg, t, RootCreated(u.id, u.createdAt))
    ensures InsertUser(t, u) == Some(Apply(cfg, t, RootCreated(u.id, u.createdAt)))
  {
    assert t.users + [u] == [u];
  }

  lemma SubtreeOf(users: seq<User>, root: Id, ids: seq<Id>)
    requires Tree(users) && multiset(ids) == multiset(Subtree(users, root))
    ensures IdSet(ids) == Subtree(users, root)
  {
    forall u ensures u in ids <==> u in Subtree(users, root) {
      assert u in ids <==> u in multiset(ids);
    }
  }

  /** What the invariant of every run gives the use cases. */
  predicate Reliable(cfg: Config, t: Tables) {
    && UniqueTokens(t.tokens) && ForeignKeysHold(t) && InvitesById(t.invites) && KeysDistinct(t.keys)
    && UniqueCredentials(t.credentials) && KeyCounts(cfg, t.credentials, t.keys)
  }

  /** The refresh of `e` took the tables from `t` to `after`, spending the token presented as `raw`. */
  predicate RefreshFits(cfg: Config, t: Tables, after: Tables, e: Event, rt: Runtime, raw: string, now: Time,
      pair: TokenPair)
  {
    && e.Refreshed? && Possible(cfg, t, e) && after == Apply(cfg, t, e) && e.now == now
    && t.tokens[e.spent].tokenHash == rt.hash(raw) && e.newHash == rt.hash(pair.refresh)
    && AccessFits(t.users, t.tokens[e.spent].userId, pair.access)
  }

  lemma RefreshIsEvent(cfg: Config, t: Tables, after: Tables, rt: Runtime, raw: string, spent: Id, newId: Id,
                       newHash: string, now: Time, pair: TokenPair)
    requires Holds(t.tokens, spent, rt.hash(raw)) && t.tokens[spent].IsValid(now)
    requires newId != NIL && newHash != "" && newId !in t.tokens && !HashTaken(t.tokens, newHash)
    requires newHash == rt.hash(pair.refresh) && AccessFits(after.users, t.tokens[spent].userId, pair.access)
    requires after == t.(tokens := AfterRotation(t.tokens, spent, newId, newHash, now))
    ensures RefreshFits(cfg, t, after, Refreshed(spent, newId, newHash, now), rt, raw, now, pair)
  {
  }

  /** A reused token took the tables from `t` to `after`, in an open transaction: its owner has no session valid at
      `at` or later, and nothing else changed. */
  ghost predicate ReuseFits(t: Tables, after: Tables, hash: string, owner: Id, at: Time) {
    && (exists k :: Holds(t.tokens, k, hash) && t.tokens[k].userId == owner)
    && after == t.(tokens := RevokeActive(t.tokens, {owner}, at))
    && NoneValidFrom(after.tokens, {owner}, at)
  }

  /** The stored keys of a credential are those its registration supplied. */
  lemma SuppliedKeys(cfg: Config, log: seq<Event>, c: Id)
    requires Run(cfg, log) && c in State(cfg, log).credentials
    ensures Runs.Supplied(log, c, Materials(KeysOf(State(cfg, log).keys, c)))
  {
    Runs.KeysRoundTrip(cfg, log, c);
    var i: nat :| Runs.KeysKept(cfg, State(cfg, log), log, i, c);
    assert log[i].reg.credentialId == c;
  }

  class Service {
    const env: Env
    ghost var log: seq<Event>

    ghost predicate Valid()
      reads this, env.db, env.rt
    {
      && env.Sound() && env.db.tx.None?
      && Run(env.cfg, log) && State(env.cfg, log) == env.db.committed
    }

    /** A service over an empty, migrated database. */
    constructor (cfg: Config, db: Storage<Tables>, rt: Runtime)
      requires db.rules == SchemaRules(cfg.deferForeignKeys) && db.Conn() == Connection(EMPTY, None, db.faults)
      requires rt.Valid()
      ensures env == Env(cfg, db, rt) && log == [] && Valid()
    {
      env, log := Env(cfg, db, rt), [];
    }

    lemma Consistent()
      requires Valid()
      ensures Reliable(env.cfg, env.db.committed)
    {
      RunKeepsInv(env.cfg, log);
    }

    /** What every caller may rely on, whatever was called before and whatever failed. */
    lemma Guarantees()
      requires Valid()
      ensures var t := env.db.committed;
              && TrustInv(t.users, t.invites) && ForeignKeysHold(t) && KeyCounts(env.cfg, t.credentials, t.keys)
              && Runs.LineagesHold(env.cfg, t.tokens, Runs.Lineages(log))
      ensures !env.cfg.deferForeignKeys ==> |env.db.committed.users| <= 1 && env.db.committed.credentials == map[]
    {
      RunKeepsInv(env.cfg, log);
      Runs.RunKeepsLineages(env.cfg, log);
      if !env.cfg.deferForeignKeys { Runs.ImmediateForeignKeysAdmitOnlyTheRoot(env.cfg, log); }
    }

    lemma Grows(e: Event)
      requires Run(env.cfg, log) && Possible(env.cfg, State(env.cfg, log), e)
      ensures Run(env.cfg, log + [e]) && State(env.cfg, log + [e]) == Apply(env.cfg, State(env.cfg, log), e)
      ensures ForeignKeysHold(Apply(env.cfg, State(env.cfg, log), e))
    {
      RunKeepsInv(env.cfg, log);
      StepKeepsInv(env.cfg, State(env.cfg, log), e);
      LogGrows(env.cfg, log, e);
    }

    /** The store the transaction would commit is what the event makes of the committed one. */
    ghost predicate Effects(e: Option<Event>)
      reads env.db
    {
      if e.None? then env.View() == env.db.committed
      else Possible(env.cfg, env.db.committed, e.value) && env.View() == Apply(env.cfg, env.db.committed, e.value)
    }

    /** A transaction of this service is open, and nothing has been committed past its log. */
    ghost predicate Open()
      reads this, env.db
    {
      && env.db.rules == SchemaRules(env.cfg.deferForeignKeys) && env.rt.Valid()
      && env.db.tx.Some? && Run(env.cfg, log) && State(env.cfg, log) == env.db.committed
    }

    /** Begins the transaction of a use case. */
    method Begin() returns (err: Option<Error>)
      requires Valid()
      modifies env.db
      ensures env.db.committed == old(env.db.committed) && Reliable(env.cfg, env.db.committed)
      ensures err.None? ==> Open() && env.Sound() && env.View() == env.db.committed
      ensures err.Some? ==> Valid() && err == Some(Infrastructure)
      ensures old(env.Calm()) ==> err.None? && env.Calm()
    {
      Consistent();
      var began;
      began, err := env.db.Enter();
    }

    /** Ends the transaction of a use case whose body returned `err`, and on commit records its event, if the body
        changed anything. `ids` and `tokens` say how much had been drawn when it began. */
    method Finish(err: Option<Error>, ghost e: Option<Event>, ghost ids: nat, ghost tokens: nat)
      returns (result: Option<Error>)
      requires Open()
      requires env.rt.Undrawn(ids, tokens, env.db.committed) && ids <= env.rt.idsDrawn && tokens <= env.rt.tokensDrawn
      requires err.None? ==> env.rt.Fresh(env.View()) && (ForeignKeysHold(env.View()) ==> Effects(e))
      modifies this`log, env.db
      ensures Valid()
      ensures log == if result.None? && e.Some? then old(log) + [e.value] else old(log)
      ensures env.db.committed == if result.None? then old(env.View()) else old(env.db.committed)
      ensures err.Some? ==> result == err
      ensures result.Some? && err.None? ==>
                result.value == Infrastructure || (result.value == Constraint && !ForeignKeysHold(old(env.View())))
      ensures result.None? ==> ForeignKeysHold(old(env.View()))
      ensures old(env.db.Conn().Faultless() && env.db.Conn().Ready()) && (err.None? ==> old(Effects(e))) ==>
                result == err
      ensures old(env.db.Conn().Faultless() && env.db.Conn().Ready()) && err.None? ==>
                result == if ForeignKeysHold(old(env.View())) then None else Some(Constraint)
    {
      env.rt.DrawnSince(ids, tokens, env.rt.idsDrawn, env.rt.tokensDrawn, env.db.committed);
      if err.None? && Effects(e) {
        if e.Some? { Grows(e.value); } else { RunKeepsInv(env.cfg, log); }
      }
      var o := env.db.Leave(true, Returned(err));
      result := o.Found();
      if result.None? && e.Some? {
        log := log + [e.value];
      }
    }

    // ---- refresh ----

    /** A reused token: every session of its owner is revoked. */
    method ReactToReuse(token: RefreshToken) returns (error: Error)
      requires env.Sound() && env.db.tx.Some? && UniqueTokens(env.View().tokens)
      requires token.id in env.View().tokens && token.Row() == env.View().tokens[token.id]
      modifies env.db, env.rt
      ensures Kept(old(env.db.Conn()), env.db.Conn(), false) && OnlyDraws(env.rt)
      ensures env.rt.idsDrawn == old(env.rt.idsDrawn) && env.rt.tokensDrawn == old(env.rt.tokensDrawn)
      ensures error in {RefreshTokenReuseDetected, Infrastructure, Constraint}
      ensures error == RefreshTokenReuseDetected ==>
                && ReuseFits(old(env.View()), env.View(), token.tokenHash, token.userId,
                             env.rt.clockAt(old(env.rt.ticks)))
                && forall k :: k in env.View().tokens && env.View().tokens[k].userId == token.userId ==>
                     env.View().tokens[k].revokedAt.Some?
                     || env.View().tokens[k].expiresAt <= env.rt.clockAt(old(env.rt.ticks))
      ensures old(env.Calm()) && ForeignKeysHold(old(env.View())) ==> error == RefreshTokenReuseDetected
    {
      RevokingLeavesNoneValid(env.View().tokens, {token.userId}, env.rt.clockAt(env.rt.ticks));
      ghost var at;
      var err;
      err, at := RevokeAllUserSessions(env, [token.userId]);
      assert IdSet([token.userId]) == {token.userId};
      NoneValidExactly(env.View().tokens, {token.userId}, at);
      return if err.Some? then err.value else RefreshTokenReuseDetected;
    }

    /** Looks the token up by its hash. A revoked one makes every session of its owner be revoked in this
        transaction before the error is returned. */
    method ValidateRefreshToken(raw: string, now: Time)
      returns (r: Result<RefreshToken, Error>, ghost owner: Id)
      requires env.Sound() && env.db.tx.Some? && UniqueTokens(env.View().tokens)
      modifies env.db, env.rt
      ensures Kept(old(env.db.Conn()), env.db.Conn(), r.Ok?) && OnlyDraws(env.rt)
      ensures env.rt.idsDrawn == old(env.rt.idsDrawn) && env.rt.tokensDrawn == old(env.rt.tokensDrawn)
      ensures r.Ok? ==>
                && env.View() == old(env.View()) && fresh(r.value) && r.value.tokenHash == env.rt.hash(raw)
                && r.value.id in env.View().tokens && env.View().tokens[r.value.id] == r.value.Row()
                && r.value.Row().IsValid(now)
      ensures r == Err(RefreshTokenReuseDetected) ==>
                ReuseFits(old(env.View()), env.View(), env.rt.hash(raw), owner, env.rt.clockAt(old(env.rt.ticks)))
      ensures r.Err? ==>
                r.error in {Infrastructure, Constraint} ||
                RefreshAnswer(old(env.View()).tokens, env.rt.hash(raw), now) == Some(r.error)
      ensures old(env.Calm()) && ForeignKeysHold(old(env.View())) ==>
                RefreshAnswer(old(env.View()).tokens, env.rt.hash(raw), now) == if r.Ok? then None else Some(r.error)
      ensures old(env.Calm()) && ForeignKeysHold(old(env.View())) ==>
                var tokens, hash := old(env.View()).tokens, env.rt.hash(raw);
                && ((forall k :: k in tokens ==> tokens[k].tokenHash != hash) ==> r == Err(RefreshTokenNotFound))
                && (forall k :: k in tokens && tokens[k].tokenHash == hash ==>
                      if tokens[k].revokedAt.Some? then r == Err(RefreshTokenReuseDetected)
                      else if now >= tokens[k].expiresAt then r == Err(RefreshTokenInvalid)
                      else r.Ok?)
      ensures r == Err(RefreshTokenReuseDetected) ==>
                && (exists k :: k in old(env.View()).tokens && old(env.View()).tokens[k].tokenHash == env.rt.hash(raw)
                                && old(env.View()).tokens[k].userId == owner)
                && forall k :: k in env.View().tokens && env.View().tokens[k].userId == owner ==>
                     env.View().tokens[k].revokedAt.Some?
                     || env.View().tokens[k].expiresAt <= env.rt.clockAt(old(env.rt.ticks))
    {
      owner := 0;
      var failed := env.rt.Failure();
      if failed {
        return Err(Infrastructure), owner;
      }
      var hash := env.rt.hash(raw);
      var found := FindByTokenHash(env, hash);
      if found.Err? {
        return Err(if found.error == NotFound then RefreshTokenNotFound else found.error), owner;
      }
      var token := found.value;
      AnswerOf(env.View().tokens, hash, now);
      if token.revokedAt.Some? {
        owner := token.userId;
        var reaction := ReactToReuse(token);
        return Err(reaction), owner;
      }
      if !(now < token.expiresAt) {
        return Err(RefreshTokenInvalid), owner;
      }
      return Ok(token), owner;
    }

    method RefreshInTx(raw: string) returns (r: Result<TokenPair, Error>, ghost e: Event, ghost owner: Id)
      requires env.Sound() && env.db.tx.Some? && UniqueTokens(env.View().tokens) && ForeignKeysHold(env.View())
      modifies env.db, env.rt
      ensures Kept(old(env.db.Conn()), env.db.Conn(), r.Ok?) && OnlyDraws(env.rt)
      ensures r.Ok? ==>
                && RefreshFits(env.cfg, old(env.View()), env.View(), e, env.rt, raw, env.rt.clockAt(old(env.rt.ticks)),
                     r.value)
                && env.rt.Fresh(env.View())
      ensures r == Err(RefreshTokenReuseDetected) ==>
                ReuseFits(old(env.View()), env.View(), env.rt.hash(raw), owner, env.rt.clockAt(old(env.rt.ticks) + 1))
      ensures var answer := RefreshAnswer(old(env.View()).tokens, env.rt.hash(raw), env.rt.clockAt(old(env.rt.ticks)));
              && (r.Err? ==> r.error in {Infrastructure, Constraint} || answer == Some(r.error))
              && (old(env.Calm()) ==> answer == if r.Ok? then None else Some(r.error))
    {
      e := RootCreated(0, 0);
      var now := env.rt.Now();
      var presented;
      presented, owner := ValidateRefreshToken(raw, now);
      if presented.Err? {
        return Err(presented.error), e, owner;
      }
      ghost var newId, newHash;
      ghost var t, spent := env.View(), presented.value.id;
      r, newId, newHash := Rotate(env, presented.value, now);
      e := Refreshed(spent, newId, newHash, now);
      if r.Ok? { RefreshIsEvent(env.cfg, t, env.View(), env.rt, raw, spent, newId, newHash, now, r.value); }
    }

    /** The transaction of a refresh. */
    method RunRefresh(raw: string) returns (r: Result<TokenPair, Error>)
      requires Valid()
      modifies this`log, env.db, env.rt
      ensures Valid()
      ensures r.Err? ==> log == old(log) && env.db.committed == old(env.db.committed)
      ensures r.Ok? ==>
                && |log| == |old(log)| + 1 && log == old(log) + [Last(log)]
                && RefreshFits(env.cfg, old(env.db.committed), env.db.committed, Last(log), env.rt, raw,
                               env.rt.clockAt(old(env.rt.ticks)), r.value)
      ensures var answer :=
                RefreshAnswer(old(env.db.committed).tokens, env.rt.hash(raw), env.rt.clockAt(old(env.rt.ticks)));
              && (r.Err? ==> r.error in {Infrastructure, Constraint} || answer == Some(r.error))
              && (old(env.Calm()) ==> answer == if r.Ok? then None else Some(r.error))
    {
      var beginErr := Begin();
      if beginErr.Some? {
        return Err(Infrastructure);
      }
      ghost var ids, tokens := env.rt.idsDrawn, env.rt.tokensDrawn;
      ghost var e, owner;
      r, e, owner := RefreshInTx(raw);
      var err := Finish(if r.Err? then Some(r.error) else None, Some(e), ids, tokens);
      if err.Some? {
        return Err(err.value);
      }
      assert Last(log) == e;
    }

    /** All or nothing: on success exactly the presented token is revoked and one live successor added; on
        every error, the one for a reused token included, the database is as before. */
    method RefreshAccessToken(raw: string) returns (r: Result<TokenPair, Error>)
      requires Valid()
      modifies this`log, env.db, env.rt
      ensures Valid()
      ensures r.Err? ==> log == old(log) && env.db.committed == old(env.db.committed)
      ensures var now, t := env.rt.clockAt(old(env.rt.ticks)), old(env.db.committed);
              var hash := env.rt.hash(raw);
              && (r.Ok? ==>
                    && |log| == |old(log)| + 1 && log == old(log) + [Last(log)]
                    && RefreshFits(env.cfg, t, env.db.committed, Last(log), env.rt, raw, now, r.value))
              && (old(env.Calm()) ==>
                    && ((forall k :: k in t.tokens ==> t.tokens[k].tokenHash != hash) ==>
                          r == Err(RefreshTokenNotFound))
                    && (forall k :: k in t.tokens && t.tokens[k].tokenHash == hash ==>
                          if t.tokens[k].revokedAt.Some? then r == Err(RefreshTokenReuseDetected)
                          else if now >= t.tokens[k].expiresAt then r == Err(RefreshTokenInvalid)
                          else r.Ok?))
      ensures r.Err? && r.error !in {Infrastructure, Constraint} ==>
                var now, tokens, hash := env.rt.clockAt(old(env.rt.ticks)), env.db.committed.tokens, env.rt.hash(raw);
                && r.error in {RefreshTokenNotFound, RefreshTokenReuseDetected, RefreshTokenInvalid}
                && (r.error == RefreshTokenNotFound <==> forall k :: k in tokens ==> tokens[k].tokenHash != hash)
                && forall k :: k in tokens && tokens[k].tokenHash == hash ==>
                     if r.error == RefreshTokenReuseDetected then tokens[k].revokedAt.Some?
                     else tokens[k].revokedAt == None && now >= tokens[k].expiresAt
      ensures r.Ok? ==>
                var now, t := env.rt.clockAt(old(env.rt.ticks)), old(env.db.committed);
                var access := r.value.access;
                exists k, newId ::
                  && k in t.tokens && t.tokens[k].tokenHash == env.rt.hash(raw) && newId !in t.tokens
                  && env.db.committed == t.(tokens :=
                       t.tokens[k := t.tokens[k].(revokedAt := Some(now))]
                               [newId := TokenRow(newId, t.tokens[k].userId, env.rt.hash(r.value.refresh),
                                                  t.tokens[k].deviceInfo, t.tokens[k].ipAddress,
                                                  t.tokens[k].expiresAt, None, now)])
                  && access.userId == t.tokens[k].userId
                  && exists i :: 0 <= i < |t.users| && t.users[i].id == access.userId && t.users[i].role == access.role
    {
      assert UniqueTokens(env.db.committed.tokens) by { Consistent(); }
      AnswerOf(env.db.committed.tokens, env.rt.hash(raw), env.rt.clockAt(env.rt.ticks));
      r := RunRefresh(raw);
    }

    // ---- revocation ----

    method RevokeSessionInTx(sessionId: Id, requester: Id, now: Time)
      returns (err: Option<Error>, ghost e: Option<Event>)
      requires env.Sound() && env.db.tx.Some? && UniqueTokens(env.View().tokens) && ForeignKeysHold(env.View())
      modifies env.db
      ensures Kept(old(env.db.Conn()), env.db.Conn(), err.None?)
      ensures err.None? ==> sessionId in old(env.View()).tokens && old(env.View()).tokens[sessionId].userId == requester
      ensures err.None? ==>
                if old(env.View()).tokens[sessionId].IsRevoked() then e == None && env.View() == old(env.View())
                else e == Some(SessionRevoked(sessionId, now)) && Possible(env.cfg, old(env.View()), e.value)
                     && env.View() == Apply(env.cfg, old(env.View()), e.value)
      ensures err.None? ==> env.rt.Fresh(env.View())
      ensures err in {None, Some(Infrastructure), Some(Constraint)} ||
              err == SessionAnswer(old(env.View()).tokens, sessionId, requester)
      ensures old(env.db.Conn().Faultless() && env.db.Conn().Ready()) ==>
                err == SessionAnswer(old(env.View()).tokens, sessionId, requester)
    {
      e := None;
      var found := FindTokenByID(env, sessionId);
      if found.Err? {
        return Some(if found.error == NotFound then SessionNotFound else found.error), e;
      }
      var token := found.value;
      if token.userId != requester {
        return Some(SessionForbidden), e;
      }
      var revoked := token.Revoke(now);
      if revoked.Some? {
        return None, e;
      }
      e := Some(SessionRevoked(sessionId, now));
      err := SaveRevoked(env, token, now);
    }

    /** The transaction of a session's revocation, for a clock read before it. */
    method RunSessionRevocation(sessionId: Id, requester: Id, now: Time) returns (err: Option<Error>)
      requires Valid()
      modifies this`log, env.db
      ensures Valid()
      ensures err.Some? ==> log == old(log)
      ensures err.None? ==>
                var tokens := old(env.db.committed).tokens;
                && sessionId in tokens && tokens[sessionId].userId == requester
                && log == old(log) + (if tokens[sessionId].IsRevoked() then [] else [SessionRevoked(sessionId, now)])
      ensures var t := old(env.db.committed);
              env.db.committed ==
              if err.None? && t.tokens[sessionId].revokedAt == None
              then t.(tokens := t.tokens[sessionId := t.tokens[sessionId].(revokedAt := Some(now))]) else t
      ensures err in {None, Some(Infrastructure), Some(Constraint)} ||
              err == SessionAnswer(old(env.db.committed).tokens, sessionId, requester)
      ensures old(env.Calm()) ==> err == SessionAnswer(old(env.db.committed).tokens, sessionId, requester)
    {
      err := Begin();
      if err.Some? {
        return;
      }
      ghost var e;
      err, e := RevokeSessionInTx(sessionId, requester, now);
      err := Finish(err, e, env.rt.idsDrawn, env.rt.tokensDrawn);
    }

    /** Only the owner can revoke a session; revoking it again succeeds and changes nothing. */
    method RevokeSession(sessionId: Id, requester: Id) returns (err: Option<Error>)
      requires Valid()
      modifies this`log, env.db, env.rt
      ensures Valid()
      ensures err.Some? ==> log == old(log)
      ensures err.None? ==>
                var tokens := old(env.db.committed).tokens;
                && sessionId in tokens && tokens[sessionId].userId == requester
                && log == old(log) + (if tokens[sessionId].revokedAt.Some? then []
                                      else [SessionRevoked(sessionId, env.rt.clockAt(old(env.rt.ticks)))])
      ensures var now, t := env.rt.clockAt(old(env.rt.ticks)), old(env.db.committed);
              env.db.committed ==
              if err.None? && t.tokens[sessionId].revokedAt == None
              then t.(tokens := t.tokens[sessionId := t.tokens[sessionId].(revokedAt := Some(now))]) else t
      ensures err.Some? && err.value !in {Infrastructure, Constraint} ==>
                var tokens := env.db.committed.tokens;
                err == Some(if sessionId !in tokens then SessionNotFound else SessionForbidden)
                && (sessionId in tokens ==> tokens[sessionId].userId != requester)
      ensures old(env.Calm()) ==>
                var tokens := old(env.db.committed).tokens;
                err == if sessionId !in tokens then Some(SessionNotFound)
                       else if tokens[sessionId].userId != requester then Some(SessionForbidden)
                       else None
    {
      var now := env.rt.Now();
      err := RunSessionRevocation(sessionId, requester, now);
    }

    /** `RevokeAllUserSessions` called outside a transaction. */
    method RevokeUsersSessions(userIds: seq<Id>) returns (err: Option<Error>)
      requires Valid()
      modifies this`log, env.db, env.rt
      ensures Valid()
      ensures log == if err.Some? then old(log)
                     else old(log) + [SessionsRevoked(IdSet(userIds), env.rt.clockAt(old(env.rt.ticks)))]
      ensures err.Some? ==> err.value in {Infrastructure, Constraint} && env.db.committed == old(env.db.committed)
      ensures err.None? ==>
                var now, before, after := env.rt.clockAt(old(env.rt.ticks)), old(env.db.committed), env.db.committed;
                && after == before.(tokens := after.tokens) && after.tokens.Keys == before.tokens.Keys
                && forall k :: k in before.tokens ==>
                     after.tokens[k] ==
                     if before.tokens[k].userId in userIds && before.tokens[k].revokedAt == None
                        && now < before.tokens[k].expiresAt
                     then before.tokens[k].(revokedAt := Some(now)) else before.tokens[k]
      ensures old(env.Calm()) ==> err.None?
    {
      assert UniqueTokens(env.db.committed.tokens) && ForeignKeysHold(env.db.committed) by { Consistent(); }
      ghost var now;
      err, now := RevokeAllUserSessions(env, userIds);
      if err.None? {
        Grows(SessionsRevoked(IdSet(userIds), now));
        log := log + [SessionsRevoked(IdSet(userIds), now)];
      }
    }

    /** Revokes the sessions of a user and of everyone below: the descendants are read first, outside the
        transaction that revokes. */
    method RevokeCompromisedChain(userId: Id) returns (err: Option<Error>)
      requires Valid()
      modifies this`log, env.db, env.rt
      ensures Valid()
      ensures err.Some? ==> log == old(log)
      ensures err.None? ==>
                && Stored(old(env.db.committed).users, userId) && Tree(old(env.db.committed).users)
                && log == old(log) + [SessionsRevoked(Subtree(old(env.db.committed).users, userId),
                                                      env.rt.clockAt(old(env.rt.ticks)))]
                && forall k :: k in env.db.committed.tokens
                               && env.db.committed.tokens[k].userId in Subtree(env.db.committed.users, userId) ==>
                     env.db.committed.tokens[k].revokedAt.Some?
                     || env.db.committed.tokens[k].expiresAt <= env.rt.clockAt(old(env.rt.ticks))
      ensures err.Some? ==>
                err.value in {Infrastructure, Constraint} ||
                (err.value == NotFound && !Stored(old(env.db.committed).users, userId))
      ensures old(env.Calm()) ==> err == if Stored(old(env.db.committed).users, userId) then None else Some(NotFound)
    {
      assert Tree(env.db.committed.users) by { RunKeepsInv(env.cfg, log); }
      ghost var users := env.db.committed.users;
      var ids, findErr := Descendants(env, userId);
      if findErr.Some? {
        return findErr;
      }
      SubtreeOf(users, userId, ids);
      assert forall u :: u in ids <==> u in IdSet(ids);
      assert old(env.Calm()) ==> env.Calm();
      err := RevokeUsersSessions(ids);
    }

    // ---- bootstrap ----

    method FindRoot() returns (r: Result<User, Error>)
      requires Valid()
      modifies env.db
      ensures Kept(old(env.db.Conn()), env.db.Conn(), r.Ok?) && env.db.committed == old(env.db.committed)
      ensures r.Ok? ==> r.value.IsRoot() && r.value in env.db.committed.users
      ensures r.Err? ==> r.error == Infrastructure || (r.error == NotFound && env.db.committed.users == [])
      ensures old(env.db.Conn().Faultless()) && r.Err? ==> r.error == NotFound
    {
      assert Tree(env.db.committed.users) by { RunKeepsInv(env.cfg, log); }
      var err := env.db.Query();
      if err.Some? {
        return Err(Infrastructure);
      }
      var root := FirstRoot(env.View().users);
      return if root.None? then Err(NotFound) else Ok(root.value);
    }

    method InsertRoot(u: User) returns (err: Option<Error>)
      requires Valid() && env.db.committed.users == [] && u.id != NIL && u == User(u.id, Admin, None, u.createdAt)
      modifies this`log, env.db
      ensures Valid()
      ensures log == if err.None? then old(log) + [RootCreated(u.id, u.createdAt)] else old(log)
      ensures env.db.committed.users == if err.None? then [u] else []
      ensures err.Some? ==> err.value in {Infrastructure, Constraint}
      ensures old(env.db.Conn().Faultless()) ==> err.None?
    {
      ghost var e, t := RootCreated(u.id, u.createdAt), env.db.committed;
      FirstUserInserted(env.cfg, t, u);
      Grows(e);
      env.rt.UserStored(env.rt.idsDrawn, env.rt.tokensDrawn, t, [u]);
      assert InsertUser(t, u) == Some(t.(users := [u]));
      err := env.db.Exec(t => InsertUser(t, u));
      if err.None? {
        log := log + [e];
      }
    }

    /** Stores the root user unless there is one already; the insert is a statement of its own. */
    method BootstrapRoot() returns (root: Option<User>, err: Option<Error>)
      requires Valid()
      modifies this`log, env.db, env.rt
      ensures Valid()
      ensures err.None? ==>
                && old(env.db.committed).users == [] && root.Some? && env.db.committed.users == [root.value]
                && log == old(log) + [RootCreated(root.value.id, env.rt.clockAt(old(env.rt.ticks)))]
                && root.value == User(root.value.id, Admin, None, env.rt.clockAt(old(env.rt.ticks)))
      ensures err.Some? ==> log == old(log)
      ensures err.Some? ==> err.value in {RootAlreadyExists, Infrastructure, Constraint}
      ensures err == Some(RootAlreadyExists) ==>
              root.Some? && root.value.invitedBy == None && root.value in env.db.committed.users
      ensures old(env.Calm()) ==> err == if old(env.db.committed).users == [] then None else Some(RootAlreadyExists)
    {
      root := None;
      var existing := FindRoot();
      if existing.Ok? {
        return Some(existing.value), Some(RootAlreadyExists);
      }
      if existing.error != NotFound {
        return None, Some(existing.error);
      }
      var now := env.rt.Now();
      var id := env.rt.NewID();
      var made := User.NewRoot(id, now);
      match made {
        case Err(error) => return None, Some(error);
        case Ok(_) =>
      }
      err := InsertRoot(made.value);
      if err.Some? {
        return None, err;
      }
      root := Some(made.value);
    }

    // ---- invites ----

    /** The transaction of `CreateInvite`, for a clock read before it. */
    method RunInviteCreation(createdBy: Id, policy: Policy, ttl: Duration, now: Time)
      returns (r: Result<Invite, Error>, code: string)
      requires Valid()
      modifies this`log, env.db, env.rt
      ensures Valid()
      ensures r.Err? ==> log == old(log)
      ensures r.Ok? ==>
                && log == old(log) + [InviteIssued(r.value.Row())]
                && InviteFits(old(env.db.committed), r.value.Row(), createdBy, env.rt.hash(code), policy, ttl, now)
      ensures r.Err? ==>
                r.error in {Infrastructure, Constraint} ||
                CreateAnswer(old(env.db.committed), createdBy, policy, now) == Some(r.error)
      ensures old(env.Calm()) ==>
                CreateAnswer(old(env.db.committed), createdBy, policy, now) == if r.Ok? then None else Some(r.error)
    {
      code := "";
      var beginErr := Begin();
      if beginErr.Some? {
        return Err(Infrastructure), code;
      }
      ghost var ids, tokens := env.rt.idsDrawn, env.rt.tokensDrawn;
      r, code := CreateInviteInTx(env, createdBy, policy, ttl, now);
      ghost var e := if r.Ok? then Some(InviteIssued(r.value.Row())) else None;
      var err := Finish(if r.Err? then Some(r.error) else None, e, ids, tokens);
      if err.Some? {
        return Err(err.value), code;
      }
    }

    method CreateInvite(createdBy: Id, policy: Policy, ttl: Duration) returns (r: Result<(string, Time), Error>)
      requires Valid()
      modifies this`log, env.db, env.rt
      ensures Valid()
      ensures r.Err? ==> log == old(log)
      ensures var now := env.rt.clockAt(old(env.rt.ticks)); var t := old(env.db.committed);
              && (r.Ok? ==>
                    && |log| == |old(log)| + 1 && log == old(log) + [Last(log)] && Last(log).InviteIssued?
                    && r.value.1 == now + ttl
                    && InviteFits(t, Last(log).invite, createdBy, env.rt.hash(r.value.0), policy, ttl, now))
              && (old(env.Calm()) ==> CreateAnswer(t, createdBy, policy, now) == if r.Ok? then None else Some(r.error))
      ensures old(env.Calm()) ==>
                var now, t := env.rt.clockAt(old(env.rt.ticks)), old(env.db.committed);
                var open := set k | k in t.invites && t.invites[k].createdBy == createdBy && t.invites[k].usedAt == None
                                    && now < t.invites[k].expiresAt;
                if policy.Limited? && |open| >= policy.maxActive then r == Err(TooManyActiveInvites)
                else if createdBy == NIL then r == Err(InvalidArgument)
                else if exists i :: 0 <= i < |t.users| && t.users[i].id == createdBy then r.Ok?
                else r == Err(Constraint)
      ensures r.Err? && r.error !in {Infrastructure, Constraint} ==>
                var now, invites := env.rt.clockAt(old(env.rt.ticks)), old(env.db.committed).invites;
                var open := set k | k in invites && invites[k].createdBy == createdBy && invites[k].usedAt == None
                                    && now < invites[k].expiresAt;
                if policy.Limited? && |open| >= policy.maxActive then r.error == TooManyActiveInvites
                else r.error == InvalidArgument && createdBy == NIL
      ensures old(env.Calm()) && createdBy != NIL && (policy.Limited? ==> policy.maxActive > 0) ==>
                var now, t := env.rt.clockAt(old(env.rt.ticks)), old(env.db.committed);
                && (exists i :: 0 <= i < |t.users| && t.users[i].id == createdBy)
                && (forall k :: k in t.invites && t.invites[k].createdBy == createdBy ==>
                      t.invites[k].usedAt.Some? || t.invites[k].expiresAt <= now)
                ==> r.Ok?
      ensures r.Ok? ==>
                var now, t := env.rt.clockAt(old(env.rt.ticks)), old(env.db.committed);
                exists id ::
                  && id !in t.invites
                  && env.db.committed == t.(invites := t.invites[id :=
                       InviteRow(id, createdBy, env.rt.hash(r.value.0), None, None, r.value.1, now)])
    {
      ghost var t := env.db.committed;
      CreateAnswerByRows(t, createdBy, policy, env.rt.clockAt(env.rt.ticks));
      if && createdBy != NIL && (policy.Limited? ==> policy.maxActive > 0)
         && (exists i :: 0 <= i < |t.users| && t.users[i].id == createdBy)
         && (forall k :: k in t.invites && t.invites[k].createdBy == createdBy ==>
               t.invites[k].usedAt.Some? || t.invites[k].expiresAt <= env.rt.clockAt(env.rt.ticks))
      {
        ExpiredInvitesDoNotCount(t, createdBy, policy, env.rt.clockAt(env.rt.ticks));
      }
      var now := env.rt.Now();
      var invite, code := RunInviteCreation(createdBy, policy, ttl, now);
      if invite.Err? {
        return Err(invite.error);
      }
      r := Ok((code, invite.value.expiresAt));
    }

    // ---- registration ----

    /** The transaction of a registration. */
    method RunRegistration(res: RegistrationResult, inputs: seq<KeyMaterial>, device: string, address: string)
      returns (r: Result<TokenPair, Error>, ghost reg: Registration)
      requires Valid() && 0 < |inputs| <= env.cfg.maxWrappedKeys
      modifies this`log, env.db, env.rt
      ensures Valid()
      ensures log == if r.Ok? then old(log) + [Registered(reg)] else old(log)
      ensures var now := env.rt.clockAt(old(env.rt.ticks)); var t := old(env.db.committed);
              && (r.Ok? ==>
                    && RegistrationFits(env.cfg, t, env.db.committed, reg, res, inputs, device, address, now)
                    && reg.session.hash == env.rt.hash(r.value.refresh)
                    && AccessFits(env.db.committed.users, res.userId, r.value.access))
      ensures var answer := RegistrationAnswer(env.cfg, old(env.db.committed), res, inputs, address,
                                               env.rt.clockAt(old(env.rt.ticks)));
              && (r.Err? ==> r.error in {Infrastructure, Constraint} || answer == Some(r.error))
              && (old(env.Calm()) ==> answer == if r.Ok? then None else Some(r.error))
    {
      reg := RegistrationOf(res, 0, [], [], NewSession(0, "", device, address), 0);
      var beginErr := Begin();
      if beginErr.Some? {
        return Err(Infrastructure), reg;
      }
      ghost var ids, tokens := env.rt.idsDrawn, env.rt.tokensDrawn;
      r, reg := RegisterInTx(env, res, inputs, device, address);
      var err := Finish(if r.Err? then Some(r.error) else None, Some(Registered(reg)), ids, tokens);
      if err.Some? {
        return Err(err.value), reg;
      }
    }

    /** `finished` is the answer of the WebAuthn library for the challenge. A registration that goes through
        consumes one invite and adds one user, one credential, the given keys and one session. */
    method FinishInviteRegistration(finished: Result<RegistrationResult, Error>, inputs: seq<KeyMaterial>,
                                    device: string, address: string)
      returns (r: Result<TokenPair, Error>)
      requires Valid()
      modifies this`log, env.db, env.rt
      ensures Valid()
      ensures r.Err? ==> log == old(log)
      ensures |inputs| == 0 ==> r == Err(WrappedKeysRequired)
      ensures 0 < |inputs| && |inputs| > env.cfg.maxWrappedKeys ==> r == Err(TooManyWrappedKeys)
      ensures 0 < |inputs| <= env.cfg.maxWrappedKeys && finished.Err? ==> r == Err(finished.error)
      ensures var now := env.rt.clockAt(old(env.rt.ticks)); var t := old(env.db.committed);
              && (r.Ok? ==>
                    && finished.Ok? && |log| == |old(log)| + 1 && log == old(log) + [Last(log)] && Last(log).Registered?
                    && RegistrationFits(env.cfg, t, env.db.committed, Last(log).reg, finished.value, inputs, device,
                         address, now)
                    && Last(log).reg.session.hash == env.rt.hash(r.value.refresh)
                    && AccessFits(env.db.committed.users, finished.value.userId, r.value.access))
      ensures r.Err? && 0 < |inputs| <= env.cfg.maxWrappedKeys && finished.Ok? ==>
                r.error in {Infrastructure, Constraint} ||
                RegistrationAnswer(env.cfg, old(env.db.committed), finished.value, inputs, address,
                                   env.rt.clockAt(old(env.rt.ticks))) == Some(r.error)
      ensures old(env.Calm()) && 0 < |inputs| <= env.cfg.maxWrappedKeys && finished.Ok? ==>
                var now, t, res := env.rt.clockAt(old(env.rt.ticks)), old(env.db.committed), finished.value;
                if res.inviteId !in t.invites then r == Err(InviteNotFound)
                else if t.invites[res.inviteId].usedAt.Some? then r == Err(InviteAlreadyUsed)
                else if now > t.invites[res.inviteId].expiresAt then r == Err(InviteExpired)
                else if !env.cfg.deferForeignKeys && (forall i :: 0 <= i < |t.users| ==> t.users[i].id != res.userId)
                then r == Err(Constraint)
                else if res.userId == NIL || t.invites[res.inviteId].createdBy == NIL then r == Err(InvalidArgument)
                else if exists i :: 0 <= i < |t.users| && t.users[i].id == res.userId then r == Err(Constraint)
                else if res.externalId == "" || res.publicKey == "" then r == Err(InvalidArgument)
                else if exists k :: k in t.credentials && t.credentials[k].externalId == res.externalId
                then r == Err(Constraint)
                else if exists m :: m in inputs && (m.scope >= 2 || m.wrappedDek == "" || m.wrapAlgorithm == "")
                then r == Err(InvalidArgument)
                else if exists i, j :: 0 <= i < j < |inputs| && inputs[i].scope == inputs[j].scope
                then r == Err(Constraint)
                else if address == "" then r == Err(InvalidArgument)
                else r.Ok?
      ensures r.Ok? ==>
                var users, access, res := env.db.committed.users, r.value.access, finished.value;
                && access.userId == res.userId
                && (exists i :: 0 <= i < |users| && users[i].id == access.userId && users[i].role == access.role)
                && Last(log).reg == Registration(
                     res.userId, res.inviteId, res.externalId, res.publicKey, res.transports, res.counter,
                     Last(log).reg.credentialId, Last(log).reg.keyIds, inputs,
                     NewSession(Last(log).reg.session.id, env.rt.hash(r.value.refresh), device, address),
                     env.rt.clockAt(old(env.rt.ticks)))
    {
      if finished.Ok? {
        assert ForeignKeysHold(env.db.committed) by { Consistent(); }
        RegistrationAnswerByRows(env.cfg, env.db.committed, finished.value, inputs, address,
                                 env.rt.clockAt(env.rt.ticks));
      }
      if |inputs| == 0 {
        return Err(WrappedKeysRequired);
      }
      if |inputs| > env.cfg.maxWrappedKeys {
        return Err(TooManyWrappedKeys);
      }
      if finished.Err? {
        return Err(finished.error);
      }
      ghost var reg;
      r, reg := RunRegistration(finished.value, inputs, device, address);
      assert r.Ok? ==> Last(log) == Registered(reg);
    }

    // ---- login ----

    /** The transaction of a login. */
    method RunLogin(auth: AuthenticationResult, device: string, address: string, now: Time)
      returns (done: Result<Committed, Error>, ghost e: Event)
      requires Valid()
      modifies this`log, env.db, env.rt
      ensures Valid()
      ensures log == if done.Ok? then old(log) + [e] else old(log)
      ensures done.Err? ==>
                && done.error !in {NotFound, CredentialCloneSuspected}
                && (done.error in {Infrastructure, Constraint} ||
                    LoginAnswer(old(env.db.committed), auth, address) == Some(done.error))
      ensures done.Ok? ==>
                if done.value.Accepted? then
                  && LoginFits(env.cfg, old(env.db.committed), env.db.committed, e, auth, device, address, now)
                  && OutputFits(old(env.db.committed), env.rt.hash, e, done.value.output)
                  && Runs.Supplied(old(log), e.credential, done.value.output.keys)
                else
                  CloneFits(env.cfg, old(env.db.committed), env.db.committed, e, auth, now,
                            env.rt.clockAt(old(env.rt.ticks)))
      ensures old(env.Calm()) ==> LoginAnswer(old(env.db.committed), auth, address) == AnswerFor(done)
    {
      e := RootCreated(0, 0);
      var beginErr := Begin();
      if beginErr.Some? {
        return Err(Infrastructure), e;
      }
      ghost var ids, tokens := env.rt.idsDrawn, env.rt.tokensDrawn;
      done, e := LoginInTx(env, auth, device, address, now);
      if done.Ok? && done.value.Accepted? { SuppliedKeys(env.cfg, log, e.credential); }
      var err := Finish(if done.Err? then Some(done.error) else None, Some(e), ids, tokens);
      if err.Some? {
        return Err(err.value), e;
      }
    }

    /** What the caller of a login is told, for a clock reading. */
    method LoginAt(auth: AuthenticationResult, device: string, address: string, now: Time)
      returns (r: Result<LoginOutput, Error>)
      requires Valid()
      modifies this`log, env.db, env.rt
      ensures Valid()
      ensures r.Err? && r.error != CredentialCloneSuspected ==> log == old(log) && r.error != NotFound
      ensures r.Ok? || r.error == CredentialCloneSuspected ==>
                |log| == |old(log)| + 1 && log == old(log) + [Last(log)]
      ensures r.Ok? ==>
                && LoginFits(env.cfg, old(env.db.committed), env.db.committed, Last(log), auth, device, address, now)
                && OutputFits(old(env.db.committed), env.rt.hash, Last(log), r.value)
                && Runs.Supplied(old(log), Last(log).credential, r.value.keys)
      ensures r == Err(CredentialCloneSuspected) ==>
                CloneFits(env.cfg, old(env.db.committed), env.db.committed, Last(log), auth, now,
                          env.rt.clockAt(old(env.rt.ticks)))
      ensures r.Err? && r.error !in {Infrastructure, Constraint, CredentialCloneSuspected} ==>
                var credentials := old(env.db.committed).credentials;
                && r.error in {CredentialNotFound, CredentialRevoked, InvalidArgument}
                && (r.error == CredentialNotFound <==>
                      forall k :: k in credentials ==> credentials[k].externalId != auth.externalId)
                && forall k :: k in credentials && credentials[k].externalId == auth.externalId ==>
                     if r.error == CredentialRevoked then credentials[k].revokedAt.Some?
                     else credentials[k].revokedAt == None && (credentials[k].userId == NIL || address == "")
      ensures old(env.Calm()) ==>
                var credentials := old(env.db.committed).credentials;
                && ((forall k :: k in credentials ==> credentials[k].externalId != auth.externalId) ==>
                      r == Err(CredentialNotFound))
                && (forall k :: k in credentials && credentials[k].externalId == auth.externalId ==>
                      if credentials[k].revokedAt.Some? then r == Err(CredentialRevoked)
                      else if auth.cloneWarning ||
                              (credentials[k].signCount != 0 && auth.newSignCount <= credentials[k].signCount)
                      then r == Err(CredentialCloneSuspected)
                      else if credentials[k].userId == NIL || address == "" then r == Err(InvalidArgument)
                      else r.Ok?)
    {
      assert UniqueCredentials(env.db.committed.credentials) by { Consistent(); }
      ghost var t, calm := env.db.committed, env.Calm();
      ghost var e;
      var done;
      done, e := RunLogin(auth, device, address, now);
      if calm { LoginAnswerByRow(t, auth, address); }
      if done.Err? {
        if done.error !in {Infrastructure, Constraint} { RefusedLoginByRow(t, auth, address, done.error); }
        return Err(done.error);
      }
      assert Last(log) == e;
      r := if done.value.CloneHandled? then Err(CredentialCloneSuspected) else Ok(done.value.output);
    }

    /** `finished` is the answer of the WebAuthn library. A login commits in exactly two cases: it succeeds, with
        the new counter, one new session and the keys registered with the credential; or a clone is suspected, and
        then the credential is revoked, no session of its user is valid from the second reading of the clock on, and
        the caller gets an error. Any other error changes nothing, and a missing wrapped key is never the reason. */
    method Login(finished: Result<AuthenticationResult, Error>, device: string, address: string)
      returns (r: Result<LoginOutput, Error>)
      requires Valid()
      modifies this`log, env.db, env.rt
      ensures Valid()
      ensures finished.Err? ==> r == Err(finished.error) && log == old(log)
      ensures finished.Ok? ==>
                var now := env.rt.clockAt(old(env.rt.ticks)); var t := old(env.db.committed);
                && (r.Err? && r.error != CredentialCloneSuspected ==> log == old(log) && r.error != NotFound)
                && (r.Ok? || r.error == CredentialCloneSuspected ==>
                      |log| == |old(log)| + 1 && log == old(log) + [Last(log)])
                && (r.Ok? ==>
                      && LoginFits(env.cfg, t, env.db.committed, Last(log), finished.value, device, address, now)
                      && OutputFits(t, env.rt.hash, Last(log), r.value)
                      && Runs.Supplied(old(log), Last(log).credential, r.value.keys))
                && (r == Err(CredentialCloneSuspected) ==>
                      CloneFits(env.cfg, t, env.db.committed, Last(log), finished.value, now,
                                env.rt.clockAt(old(env.rt.ticks) + 1)))
      ensures r.Err? && finished.Ok? && r.error !in {Infrastructure, Constraint, CredentialCloneSuspected} ==>
                var credentials, auth := old(env.db.committed).credentials, finished.value;
                && r.error in {CredentialNotFound, CredentialRevoked, InvalidArgument}
                && (r.error == CredentialNotFound <==>
                      forall k :: k in credentials ==> credentials[k].externalId != auth.externalId)
                && forall k :: k in credentials && credentials[k].externalId == auth.externalId ==>
                     if r.error == CredentialRevoked then credentials[k].revokedAt.Some?
                     else credentials[k].revokedAt == None && (credentials[k].userId == NIL || address == "")
      ensures old(env.Calm()) && finished.Ok? ==>
                var credentials, auth := old(env.db.committed).credentials, finished.value;
                && ((forall k :: k in credentials ==> credentials[k].externalId != auth.externalId) ==>
                      r == Err(CredentialNotFound))
                && (forall k :: k in credentials && credentials[k].externalId == auth.externalId ==>
                      if credentials[k].revokedAt.Some? then r == Err(CredentialRevoked)
                      else if auth.cloneWarning ||
                              (credentials[k].signCount != 0 && auth.newSignCount <= credentials[k].signCount)
                      then r == Err(CredentialCloneSuspected)
                      else if credentials[k].userId == NIL || address == "" then r == Err(InvalidArgument)
                      else r.Ok?)
      ensures r.Ok? ==>
                var t, e, access := old(env.db.committed), Last(log), r.value.tokens.access;
                && e == LoggedIn(e.credential, finished.value.newSignCount,
                                 NewSession(e.session.id, env.rt.hash(r.value.tokens.refresh), device, address),
                                 env.rt.clockAt(old(env.rt.ticks)))
                && t.credentials[e.credential].externalId == finished.value.externalId
                && access.userId == t.credentials[e.credential].userId
                && exists i :: 0 <= i < |t.users| && t.users[i].id == access.userId && t.users[i].role == access.role
      ensures r == Err(CredentialCloneSuspected) && finished.Ok? ==>
                var e, row := Last(log), old(env.db.committed).credentials[Last(log).credential];
                && e == CloneSuspected(e.credential, finished.value.newSignCount, env.rt.clockAt(old(env.rt.ticks)),
                                       env.rt.clockAt(old(env.rt.ticks) + 1))
                && row.externalId == finished.value.externalId
                && env.db.committed.credentials[e.credential].revokedAt == Some(e.now)
      ensures r == Err(CredentialCloneSuspected) && finished.Ok? ==>
                var tokens, user := env.db.committed.tokens,
                                    old(env.db.committed).credentials[Last(log).credential].userId;
                forall k :: k in tokens && tokens[k].userId == user ==>
                  tokens[k].revokedAt.Some? || tokens[k].expiresAt <= env.rt.clockAt(old(env.rt.ticks) + 1)
    {
      var now := env.rt.Now();
      if finished.Err? {
        return Err(finished.error);
      }
      r := LoginAt(finished.value, device, address, now);
    }
  }
}
