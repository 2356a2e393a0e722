/** The steps of `Login`, inside the open transaction. */
module LoginSteps {
  import opened Basics
  import opened Domain
  import opened Tables
  import opened History
  import opened Environment
  import opened Sessions
  import opened RegistrationSteps

  /** What `Authenticator.Finish` answers. */
  datatype AuthenticationResult = AuthenticationResult(externalId: string, newSignCount: uint32, cloneWarning: bool)

  datatype LoginOutput = LoginOutput(tokens: TokenPair, keys: seq<KeyMaterial>)

  predicate HasExternalId(credentials: map<Id, CredentialRow>, k: Id, externalId: string) {
    k in credentials && credentials[k].externalId == externalId
  }

  predicate Suspected(row: CredentialRow, auth: AuthenticationResult) {
    auth.cloneWarning || !CounterAccepted(row.signCount, auth.newSignCount)
  }

  function CredentialAnswer(row: CredentialRow, auth: AuthenticationResult, address: string): Option<Error> {
    if row.revokedAt.Some? then Some(CredentialRevoked)
    else if Suspected(row, auth) then Some(CredentialCloneSuspected)
    else if row.userId == NIL || address == "" then Some(InvalidArgument)
    else None
  }

  /** The answer to an authenticated login, apart from failures. */
  ghost function LoginAnswer(t: Tables, auth: AuthenticationResult, address: string): Option<Error> {
    if ExternalIdTaken(t.credentials, auth.externalId) then
      var k :| k in t.credentials && t.credentials[k].externalId == auth.externalId;
      CredentialAnswer(t.credentials[k], auth, address)
    else Some(CredentialNotFound)
  }

  lemma LoginAnswerOf(t: Tables, k: Id, auth: AuthenticationResult, address: string)
    requires UniqueCredentials(t.credentials) && HasExternalId(t.credentials, k, auth.externalId)
    ensures LoginAnswer(t, auth, address) == CredentialAnswer(t.credentials[k], auth, address)
  {
  }

  /** Without a credential of that external id it is unknown; otherwise that one decides: revoked, then suspected to be
      a clone, then unusable arguments. */
  lemma LoginAnswerByRow(t: Tables, auth: AuthenticationResult, address: string)
    requires UniqueCredentials(t.credentials)
    ensures (forall k :: k in t.credentials ==> t.credentials[k].externalId != auth.externalId) ==>
              LoginAnswer(t, auth, address) == Some(CredentialNotFound)
    ensures forall k :: k in t.credentials && t.credentials[k].externalId == auth.externalId ==>
              LoginAnswer(t, auth, address) ==
              if t.credentials[k].revokedAt.Some? then Some(CredentialRevoked)
              else if auth.cloneWarning ||
                      (t.credentials[k].signCount != 0 && auth.newSignCount <= t.credentials[k].signCount)
              then Some(CredentialCloneSuspected)
              else if t.credentials[k].userId == NIL || address == "" then Some(InvalidArgument)
              else None
  {
    forall k | HasExternalId(t.credentials, k, auth.externalId)
      ensures LoginAnswer(t, auth, address) == CredentialAnswer(t.credentials[k], auth, address)
    {
      LoginAnswerOf(t, k, auth, address);
    }
  }

  /** What a refusal says about the rows. */
  lemma RefusedLoginByRow(t: Tables, auth: AuthenticationResult, address: string, error: Error)
    requires UniqueCredentials(t.credentials) && LoginAnswer(t, auth, address) == Some(error)
    requires error != CredentialCloneSuspected
    ensures error in {CredentialNotFound, CredentialRevoked, InvalidArgument}
    ensures error == CredentialNotFound <==>
            forall k :: k in t.credentials ==> t.credentials[k].externalId != auth.externalId
    ensures forall k :: k in t.credentials && t.credentials[k].externalId == auth.externalId ==>
              if error == CredentialRevoked then t.credentials[k].revokedAt.Some?
              else t.credentials[k].revokedAt == None && (t.credentials[k].userId == NIL || address == "")
  {
    LoginAnswerByRow(t, auth, address);
  }

  method FindCredential(env: Env, externalId: string) returns (r: Result<Credential, Error>)
    requires UniqueCredentials(env.View().credentials)
    modifies env.db
    ensures Kept(old(env.db.Conn()), env.db.Conn(), r.Ok?) && env.View() == old(env.View())
    ensures var credentials := env.View().credentials;
            && (r.Ok? ==> fresh(r.value) && HasExternalId(credentials, r.value.id, externalId)
                          && r.value.Row() == credentials[r.value.id] && r.value.revokedAt.None?)
            && (r.Err? ==> r.error == Infrastructure
                           || (r.error == CredentialNotFound && !ExternalIdTaken(credentials, externalId))
                           || (r.error == CredentialRevoked
                               && exists k :: HasExternalId(credentials, k, externalId)
                                    && credentials[k].revokedAt.Some?))
    ensures old(env.db.Conn().Faultless() && env.db.Conn().Ready()) && r.Err? ==> r.error != Infrastructure
  {
    var err := env.db.Query();
    if err.Some? {
      return Err(Infrastructure);
    }
    var rows := env.View().credentials;
    var matching := set k | k in rows && rows[k].externalId == externalId;
    if matching == {} {
      assert forall k :: k in rows && rows[k].externalId == externalId ==> k in matching;
      return Err(CredentialNotFound);
    }
    var k :| k in matching;
    assert HasExternalId(rows, k, externalId);
    var credential := new Credential.Reconstruct(rows[k]);
    if credential.revokedAt.Some? {
      return Err(CredentialRevoked);
    }
    return Ok(credential);
  }

  method SaveCredential(env: Env, credential: Credential) returns (err: Option<Error>)
    requires env.db.tx.Some? && env.db.rules == SchemaRules(env.cfg.deferForeignKeys)
    requires credential.id in env.View().credentials
    requires var row := env.View().credentials[credential.id];
             credential.Row() == row.(signCount := credential.signCount, revokedAt := credential.revokedAt)
    modifies env.db
    ensures Kept(old(env.db.Conn()), env.db.Conn(), err.None?)
    ensures err.None? ==> env.View() == old(env.View()).(credentials :=
                            old(env.View()).credentials[credential.id := old(credential.Row())])
    ensures err.Some? ==> err.value in {Infrastructure, Constraint}
    ensures old(env.db.Conn().Faultless() && env.db.Conn().Ready()) && ForeignKeysHold(old(env.View())) ==> err.None?
  {
    var row := credential.Row();
    ghost var t := env.View();
    if ForeignKeysHold(t) { UpdatedCredentialKeepsForeignKeys(t, row); }
    err := env.db.Exec(t => UpsertCredential(t, row));
  }

  lemma UpdatedCredentialKeepsForeignKeys(t: Tables, row: CredentialRow)
    requires ForeignKeysHold(t) && row.id in t.credentials && row.userId == t.credentials[row.id].userId
    ensures ForeignKeysHold(t.(credentials := t.credentials[row.id := row]))
  {
    assert forall u :: u in t.users ==> InviterStored(t.users, u);
  }

  /** The keys of a credential, in the order they are stored. */
  method FindWrappedKeys(env: Env, credentialId: Id) returns (r: Result<seq<WrappedKey>, Error>)
    modifies env.db
    ensures Kept(old(env.db.Conn()), env.db.Conn(), r.Ok?) && env.View() == old(env.View())
    ensures r.Ok? ==>
              var rows := KeysOf(env.View().keys, credentialId);
              |r.value| == |rows| && forall i :: 0 <= i < |rows| ==> r.value[i] == RowToKey(rows[i])
    ensures r.Err? ==> r.error == Infrastructure || (r.error == NotFound && KeysOf(env.View().keys, credentialId) == [])
    ensures old(env.db.Conn().Faultless() && env.db.Conn().Ready()) ==> (r.Err? ==> r.error == NotFound)
  {
    var err := env.db.Query();
    if err.Some? {
      return Err(Infrastructure);
    }
    var rows := KeysOf(env.View().keys, credentialId);
    if |rows| == 0 {
      return Err(NotFound);
    }
    var keys: seq<WrappedKey> := [];
    for i := 0 to |rows|
      invariant |keys| == i && forall j :: 0 <= j < i ==> keys[j] == RowToKey(rows[j])
    {
      keys := keys + [RowToKey(rows[i])];
    }
    return Ok(keys);
  }

  method WrappedKeysToOutput(keys: seq<WrappedKey>) returns (out: seq<KeyMaterial>)
    ensures |out| == |keys| && forall i :: 0 <= i < |keys| ==> out[i] == keys[i].material
  {
    out := [];
    for i := 0 to |keys|
      invariant |out| == i && forall j :: 0 <= j < i ==> out[j] == keys[j].material
    {
      out := out + [keys[i].material];
    }
  }

  /** A suspected clone: the credential is revoked and saved, with its new counter when that was
      acceptable, and every session of its user is revoked. */
  method HandleClone(env: Env, credential: Credential, now: Time) returns (err: Option<Error>, ghost at: Time)
    requires env.Sound() && env.db.tx.Some? && UniqueTokens(env.View().tokens) && ForeignKeysHold(env.View())
    requires credential.id in env.View().credentials && credential.revokedAt.None?
    requires var row := env.View().credentials[credential.id];
             credential.Row() == row.(signCount := credential.signCount)
    modifies env.db, env.rt, credential
    ensures Kept(old(env.db.Conn()), env.db.Conn(), err.None?) && OnlyDraws(env.rt)
    ensures err.None? ==>
              && env.View() == old(env.View()).(
                   credentials :=
                     old(env.View()).credentials[credential.id := old(credential.Row()).(revokedAt := Some(now))],
                   tokens := RevokeActive(old(env.View()).tokens, {credential.userId}, at))
              && env.rt.Fresh(env.View())
              && at == env.rt.clockAt(old(env.rt.ticks))
              && NoneValidFrom(env.View().tokens, {credential.userId}, at)
    ensures err.Some? ==> err.value in {Infrastructure, Constraint}
    ensures old(env.Calm()) ==> err.None?
  {
    at := now;
    ghost var t := env.View();
    err := credential.Revoke(now);
    if err.Some? {
      return;
    }
    UpdatedCredentialKeepsForeignKeys(t, credential.Row());
    env.rt.CredentialUpdated(env.rt.idsDrawn, env.rt.tokensDrawn, t, credential.Row());
    err := SaveCredential(env, credential);
    if err.Some? {
      return;
    }
    RevokingLeavesNoneValid(t.tokens, {credential.userId}, env.rt.clockAt(env.rt.ticks));
    err, at := RevokeAllUserSessions(env, [credential.userId]);
    assert IdSet([credential.userId]) == {credential.userId};
  }

  /** Saves the accepted counter and reads the wrapped keys. */
  method SaveAndReadKeys(env: Env, credential: Credential) returns (keys: Result<seq<WrappedKey>, Error>)
    requires env.Sound() && env.db.tx.Some? && ForeignKeysHold(env.View())
    requires credential.id in env.View().credentials && KeysOf(env.View().keys, credential.id) != []
    requires var row := env.View().credentials[credential.id];
             credential.Row() == row.(signCount := credential.signCount)
    modifies env.db
    ensures Kept(old(env.db.Conn()), env.db.Conn(), keys.Ok?)
    ensures keys.Ok? ==>
              var t := old(env.View());
              && env.View() == t.(credentials := t.credentials[credential.id := credential.Row()])
              && env.rt.Fresh(env.View()) && ForeignKeysHold(env.View())
              && |keys.value| == |KeysOf(t.keys, credential.id)|
              && forall i :: 0 <= i < |keys.value| ==> keys.value[i] == RowToKey(KeysOf(t.keys, credential.id)[i])
    ensures keys.Err? ==> keys.error in {Infrastructure, Constraint}
    ensures old(env.db.Conn().Faultless() && env.db.Conn().Ready()) ==> keys.Ok?
  {
    ghost var t := env.View();
    UpdatedCredentialKeepsForeignKeys(t, credential.Row());
    env.rt.CredentialUpdated(env.rt.idsDrawn, env.rt.tokensDrawn, t, credential.Row());
    var err := SaveCredential(env, credential);
    if err.Some? {
      return Err(err.value);
    }
    keys := FindWrappedKeys(env, credential.id);
  }

  /** An accepted counter: it is saved, the wrapped keys are read, a session is issued. */
  method Accept(env: Env, credential: Credential, device: string, address: string, now: Time)
    returns (r: Result<LoginOutput, Error>, ghost s: NewSession)
    requires env.Sound() && env.db.tx.Some? && ForeignKeysHold(env.View())
    requires credential.id in env.View().credentials && KeysOf(env.View().keys, credential.id) != []
    requires var row := env.View().credentials[credential.id];
             credential.Row() == row.(signCount := credential.signCount)
    modifies env.db, env.rt
    ensures Kept(old(env.db.Conn()), env.db.Conn(), r.Ok?) && OnlyDraws(env.rt)
    ensures r.Ok? ==>
              var t := old(env.View());
              && FreshSession(t, s) && s.device == device && s.address == address
              && s.hash == env.rt.hash(r.value.tokens.refresh)
              && env.View() == t.(credentials := t.credentials[credential.id := old(credential.Row())],
                                  tokens := t.tokens[s.id := SessionRow(env.cfg, s, credential.userId, now)])
              && env.rt.Fresh(env.View())
              && r.value.keys == Materials(KeysOf(t.keys, credential.id))
              && AccessFits(t.users, credential.userId, r.value.tokens.access)
    ensures r.Err? ==>
              r.error in {Infrastructure, Constraint} ||
              (r.error == InvalidArgument && (credential.userId == NIL || address == ""))
    ensures old(env.Calm()) ==> if credential.userId == NIL || address == "" then r == Err(InvalidArgument) else r.Ok?
  {
    s := NewSession(0, "", device, address);
    ghost var t := env.View();
    var keys := SaveAndReadKeys(env, credential);
    if keys.Err? {
      return Err(keys.error), s;
    }
    var pair;
    pair, s := Issue(env, credential.userId, device, address, now);
    if pair.Err? {
      return Err(pair.error), s;
    }
    var out := WrappedKeysToOutput(keys.value);
    assert out == Materials(KeysOf(t.keys, credential.id));
    return Ok(LoginOutput(pair.value, out)), s;
  }

  /** What one login commits: the acceptance with a new session, or the reaction to a suspected clone. */
  datatype Committed = Accepted(output: LoginOutput) | CloneHandled

  /** The login of `e` took the tables from `t` to `after`: the new counter is stored and one session added. */
  predicate LoginFits(cfg: Config, t: Tables, after: Tables, e: Event, auth: AuthenticationResult, device: string,
                      address: string, now: Time)
  {
    && e.LoggedIn? && Possible(cfg, t, e) && after == Apply(cfg, t, e)
    && HasExternalId(t.credentials, e.credential, auth.externalId) && !Suspected(t.credentials[e.credential], auth)
    && e.counter == auth.newSignCount && e.now == now
    && e.session.device == device && e.session.address == address
  }

  /** What the caller gets: the refresh token of the new session, an access token for the stored role, the stored
      keys. */
  predicate OutputFits(t: Tables, hash: string -> string, e: Event, out: LoginOutput) {
    && e.LoggedIn? && e.session.hash == hash(out.tokens.refresh)
    && e.credential in t.credentials && AccessFits(t.users, t.credentials[e.credential].userId, out.tokens.access)
    && out.keys == Materials(KeysOf(t.keys, e.credential))
  }

  /** The suspected clone of `e` took the tables from `t` to `after`: the credential is revoked, and from the reading of
      the clock on no session of its user is valid. */
  ghost predicate CloneFits(cfg: Config, t: Tables, after: Tables, e: Event, auth: AuthenticationResult, now: Time,
                            sessionsNow: Time)
  {
    && e.CloneSuspected? && Possible(cfg, t, e) && after == Apply(cfg, t, e)
    && HasExternalId(t.credentials, e.credential, auth.externalId) && Suspected(t.credentials[e.credential], auth)
    && e.counter == auth.newSignCount && e.now == now && e.sessionsNow == sessionsNow
    && NoneValidFrom(after.tokens, {t.credentials[e.credential].userId}, sessionsNow)
  }

  lemma LoginIsEvent(cfg: Config, t: Tables, after: Tables, c: Id, s: NewSession, auth: AuthenticationResult, now: Time)
    requires HasExternalId(t.credentials, c, auth.externalId) && !Suspected(t.credentials[c], auth)
    requires t.credentials[c].revokedAt.None? && FreshSession(t, s)
    requires var row := t.credentials[c];
             after == t.(credentials := t.credentials[c := row.(signCount := auth.newSignCount)],
                         tokens := t.tokens[s.id := SessionRow(cfg, s, row.userId, now)])
    ensures LoginFits(cfg, t, after, LoggedIn(c, auth.newSignCount, s, now), auth, s.device, s.address, now)
  {
  }

  /** The row of a credential suspected to be a clone: its counter is kept when that was acceptable. */
  function SuspectedRow(row: CredentialRow, auth: AuthenticationResult, now: Time): CredentialRow {
    (if CounterAccepted(row.signCount, auth.newSignCount) then row.(signCount := auth.newSignCount) else row)
    .(revokedAt := Some(now))
  }

  lemma CloneIsEvent(cfg: Config, t: Tables, after: Tables, c: Id, auth: AuthenticationResult, now: Time, at: Time)
    requires HasExternalId(t.credentials, c, auth.externalId) && Suspected(t.credentials[c], auth)
    requires t.credentials[c].revokedAt.None?
    requires var row := t.credentials[c];
             after == t.(credentials := t.credentials[c := SuspectedRow(row, auth, now)],
                         tokens := RevokeActive(t.tokens, {row.userId}, at))
    ensures CloneFits(cfg, t, after, CloneSuspected(c, auth.newSignCount, now, at), auth, now, at)
  {
    RevokingLeavesNoneValid(t.tokens, {t.credentials[c].userId}, at);
  }

  /** The body from the counter on, for the unrevoked credential found. */
  method Decide(env: Env, credential: Credential, auth: AuthenticationResult, device: string, address: string,
      now: Time)
    returns (r: Result<Committed, Error>, ghost e: Event)
    requires env.Sound() && env.db.tx.Some? && ForeignKeysHold(env.View()) && UniqueTokens(env.View().tokens)
    requires HasExternalId(env.View().credentials, credential.id, auth.externalId) && credential.revokedAt.None?
    requires credential.Row() == env.View().credentials[credential.id] && KeysOf(env.View().keys, credential.id) != []
    modifies env.db, env.rt, credential
    ensures Kept(old(env.db.Conn()), env.db.Conn(), r.Ok?) && OnlyDraws(env.rt)
    ensures r.Ok? ==>
              && env.rt.Fresh(env.View())
              && (if r.value.Accepted? then
                    && LoginFits(env.cfg, old(env.View()), env.View(), e, auth, device, address, now)
                    && OutputFits(old(env.View()), env.rt.hash, e, r.value.output)
                  else
                    CloneFits(env.cfg, old(env.View()), env.View(), e, auth, now, env.rt.clockAt(old(env.rt.ticks))))
    ensures r.Err? ==>
              && r.error !in {NotFound, CredentialCloneSuspected}
              && (r.error in {Infrastructure, Constraint} ||
                  CredentialAnswer(old(credential.Row()), auth, address) == Some(r.error))
    ensures old(env.Calm()) ==> CredentialAnswer(old(credential.Row()), auth, address) == AnswerFor(r)
  {
    e := RootCreated(0, 0);
    ghost var t, c := env.View(), credential.id;
    var counted := credential.SetSignCount(auth.newSignCount);
    if auth.cloneWarning || counted == Some(SignCountRegression) {
      ghost var at;
      var err;
      err, at := HandleClone(env, credential, now);
      e := CloneSuspected(c, auth.newSignCount, now, at);
      if err.None? { CloneIsEvent(env.cfg, t, env.View(), c, auth, now, at); }
      return if err.Some? then Err(err.value) else Ok(CloneHandled), e;
    }
    match counted {
      case Some(error) => return Err(error), e;
      case None =>
    }
    ghost var s;
    var accepted;
    accepted, s := Accept(env, credential, device, address, now);
    e := LoggedIn(c, auth.newSignCount, s, now);
    if accepted.Ok? { LoginIsEvent(env.cfg, t, env.View(), c, s, auth, now); }
    return if accepted.Err? then Err(accepted.error) else Ok(Accepted(accepted.value)), e;
  }

  /** The transaction body. It returns no error exactly in the two cases that commit. */
  method LoginInTx(env: Env, auth: AuthenticationResult, device: string, address: string, now: Time)
    returns (r: Result<Committed, Error>, ghost e: Event)
    requires env.Sound() && env.db.tx.Some? && ForeignKeysHold(env.View()) && UniqueTokens(env.View().tokens)
    requires UniqueCredentials(env.View().credentials) && KeyCounts(env.cfg, env.View().credentials, env.View().keys)
    modifies env.db, env.rt
    ensures Kept(old(env.db.Conn()), env.db.Conn(), r.Ok?) && OnlyDraws(env.rt)
    ensures r.Ok? ==>
              && env.rt.Fresh(env.View())
              && (if r.value.Accepted? then
                    && LoginFits(env.cfg, old(env.View()), env.View(), e, auth, device, address, now)
                    && OutputFits(old(env.View()), env.rt.hash, e, r.value.output)
                  else
                    CloneFits(env.cfg, old(env.View()), env.View(), e, auth, now, env.rt.clockAt(old(env.rt.ticks))))
    ensures r.Err? ==>
              && r.error !in {NotFound, CredentialCloneSuspected}
              && (r.error in {Infrastructure, Constraint} ||
                  LoginAnswer(old(env.View()), auth, address) == Some(r.error))
    ensures old(env.Calm()) ==> LoginAnswer(old(env.View()), auth, address) == AnswerFor(r)
  {
    e := RootCreated(0, 0);
    ghost var t := env.View();
    var found := FindCredential(env, auth.externalId);
    if found.Err? {
      if exists k :: HasExternalId(t.credentials, k, auth.externalId) && t.credentials[k].revokedAt.Some? {
        ghost var k :| HasExternalId(t.credentials, k, auth.externalId) && t.credentials[k].revokedAt.Some?;
        LoginAnswerOf(t, k, auth, address);
      }
      return Err(found.error), e;
    }
    var credential := found.value;
    ghost var c := credential.id;
    LoginAnswerOf(t, c, auth, address);
    r, e := Decide(env, credential, auth, device, address, now);
  }

  /** What the caller of `Login` is told. */
  function AnswerFor(r: Result<Committed, Error>): Option<Error> {
    if r.Err? then Some(r.error) else if r.value.Accepted? then None else Some(CredentialCloneSuspected)
  }
}
