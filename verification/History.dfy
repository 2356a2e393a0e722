/** The committed history of the service: what each successful operation does to the tables, and what every
    run keeps. A failed operation leaves no event (module Service), so a run is the sequence of its
    events; no event constrains the clock, hence the results hold for every way time passes. */
module History {
  import opened Basics
  import opened Domain
  import opened TrustTree
  import opened Tables

  datatype Config = Config(deferForeignKeys: bool, refreshTtl: Duration, maxWrappedKeys: int)

  datatype NewSession = NewSession(id: Id, hash: string, device: string, address: string)

  datatype Registration = Registration(
    userId: Id, inviteId: Id, externalId: string, publicKey: string, transports: seq<string>, counter: uint32,
    credentialId: Id, keyIds: seq<Id>, materials: seq<KeyMaterial>, session: NewSession, now: Time)

  datatype Event =
    | RootCreated(rootId: Id, now: Time)
    | InviteIssued(invite: InviteRow)
    | Registered(reg: Registration)
    | LoggedIn(credential: Id, counter: uint32, session: NewSession, now: Time)
    | CloneSuspected(credential: Id, counter: uint32, now: Time, sessionsNow: Time)
    | Refreshed(spent: Id, newId: Id, newHash: string, now: Time)
    | SessionRevoked(token: Id, now: Time)
    | SessionsRevoked(users: set<Id>, now: Time)

  // ---- what an event needs ----

  predicate FreshSession(t: Tables, s: NewSession) {
    s.id != NIL && s.hash != "" && s.address != "" && s.id !in t.tokens && !HashTaken(t.tokens, s.hash)
  }

  predicate RegistrationPossible(cfg: Config, t: Tables, r: Registration) {
    && cfg.deferForeignKeys
    && r.inviteId in t.invites && !t.invites[r.inviteId].IsUsed() && !t.invites[r.inviteId].IsExpired(r.now)
    && Stored(t.users, t.invites[r.inviteId].createdBy)
    && r.userId != NIL && !Stored(t.users, r.userId)
    && r.externalId != "" && r.publicKey != ""
    && r.credentialId != NIL && r.credentialId !in t.credentials
    && (forall k | k in t.credentials :: t.credentials[k].externalId != r.externalId)
    && 0 < |r.materials| <= cfg.maxWrappedKeys && |r.keyIds| == |r.materials|
    && (forall i | 0 <= i < |r.materials| :: r.materials[i].Valid() && r.keyIds[i] != NIL)
    && KeysDistinct(t.keys + KeyRows(r))
    && FreshSession(t, r.session)
  }

  predicate Possible(cfg: Config, t: Tables, e: Event) {
    match e
    case RootCreated(id, now) => id != NIL && t.users == []
    case InviteIssued(row) =>
      row.id != NIL && row.id !in t.invites && row.usedBy.None? && row.usedAt.None?
      && !CodeTaken(t.invites, row.codeHash)
      && Stored(t.users, row.createdBy)
    case Registered(r) => RegistrationPossible(cfg, t, r)
    case LoggedIn(c, n, s, now) =>
      && c in t.credentials && t.credentials[c].revokedAt.None? && CounterAccepted(t.credentials[c].signCount, n)
      && FreshSession(t, s)
    case CloneSuspected(c, n, now, sessionsNow) => c in t.credentials && t.credentials[c].revokedAt.None?
    case Refreshed(spent, newId, newHash, now) =>
      && spent in t.tokens && t.tokens[spent].IsValid(now)
      && newId != NIL && newId !in t.tokens && newHash != "" && !HashTaken(t.tokens, newHash)
    case SessionRevoked(token, now) => token in t.tokens && !t.tokens[token].IsRevoked()
    case SessionsRevoked(users, now) => true
  }

  // ---- what an event does ----

  function KeyRowsFor(userId: Id, credentialId: Id, ids: seq<Id>, materials: seq<KeyMaterial>, now: Time)
    : (rows: seq<WrappedKeyRow>)
    requires |ids| == |materials|
    ensures |rows| == |materials|
    ensures forall row :: row in rows ==> row.credentialId == credentialId && row.userId == userId
  {
    seq(|materials|, i requires 0 <= i < |materials| =>
      KeyToRow(WrappedKey(ids[i], userId, credentialId, materials[i], now)))
  }

  function KeyRows(r: Registration): (rows: seq<WrappedKeyRow>)
    requires |r.keyIds| == |r.materials|
  {
    KeyRowsFor(r.userId, r.credentialId, r.keyIds, r.materials, r.now)
  }

  function SessionRow(cfg: Config, s: NewSession, user: Id, now: Time): TokenRow {
    TokenRow(s.id, user, s.hash, s.device, s.address, now + cfg.refreshTtl, None, now)
  }

  /** The row of a new session, column by column. */
  lemma SessionColumns(cfg: Config, s: NewSession, user: Id, now: Time)
    ensures var row := SessionRow(cfg, s, user, now);
            && row.id == s.id && row.userId == user && row.tokenHash == s.hash && row.deviceInfo == s.device
            && row.ipAddress == s.address && row.expiresAt == now + cfg.refreshTtl && row.revokedAt == None
            && row.createdAt == now
  {
  }

  function Register(cfg: Config, t: Tables, r: Registration): Tables
    requires RegistrationPossible(cfg, t, r)
  {
    var invite := t.invites[r.inviteId];
    var creator := FindUser(t.users, invite.createdBy).value;
    t.(users := t.users + [User(r.userId, creator.NextInviteeRole(), Some(creator.id), r.now)],
       invites := t.invites[r.inviteId := invite.(usedBy := Some(r.userId), usedAt := Some(r.now))],
       credentials := t.credentials[r.credentialId :=
         CredentialRow(r.credentialId, r.externalId, r.userId, r.publicKey, r.counter, r.transports, r.now, None)],
       keys := t.keys + KeyRows(r),
       tokens := t.tokens[r.session.id := SessionRow(cfg, r.session, r.userId, r.now)])
  }

  function Apply(cfg: Config, t: Tables, e: Event): Tables
    requires Possible(cfg, t, e)
  {
    match e
    case RootCreated(id, now) => t.(users := [User(id, Admin, None, now)])
    case InviteIssued(row) => t.(invites := t.invites[row.id := row])
    case Registered(r) => Register(cfg, t, r)
    case LoggedIn(c, n, s, now) =>
      t.(credentials := t.credentials[c := t.credentials[c].(signCount := n)],
         tokens := t.tokens[s.id := SessionRow(cfg, s, t.credentials[c].userId, now)])
    case CloneSuspected(c, n, now, sessionsNow) =>
      var row := t.credentials[c];
      var counted := if CounterAccepted(row.signCount, n) then row.(signCount := n) else row;
      t.(credentials := t.credentials[c := counted.(revokedAt := Some(now))],
         tokens := RevokeActive(t.tokens, {row.userId}, sessionsNow))
    case Refreshed(spent, newId, newHash, now) => t.(tokens := AfterRotation(t.tokens, spent, newId, newHash, now))
    case SessionRevoked(token, now) => t.(tokens := t.tokens[token := t.tokens[token].(revokedAt := Some(now))])
    case SessionsRevoked(users, now) => t.(tokens := RevokeActive(t.tokens, users, now))
  }

  // ---- what the events do, row by row ----

  /** A refresh revokes the token spent and adds one that differs in id, hash and creation time. */
  lemma RefreshedRows(cfg: Config, t: Tables, e: Event)
    requires Possible(cfg, t, e) && e.Refreshed? && t.tokens[e.spent].id == e.spent
    ensures var after := Apply(cfg, t, e);
            && after == t.(tokens := after.tokens) && after.tokens.Keys == t.tokens.Keys + {e.newId}
            && e.newId !in t.tokens && t.tokens[e.spent].revokedAt == None && e.now < t.tokens[e.spent].expiresAt
            && after.tokens[e.spent] == t.tokens[e.spent].(revokedAt := Some(e.now))
            && after.tokens[e.newId] ==
               TokenRow(e.newId, t.tokens[e.spent].userId, e.newHash, t.tokens[e.spent].deviceInfo,
                        t.tokens[e.spent].ipAddress, t.tokens[e.spent].expiresAt, None, e.now)
            && forall k :: k in t.tokens && k != e.spent ==> after.tokens[k] == t.tokens[k]
  {
  }

  /** A login stores the counter and adds one session of the credential's user. */
  lemma LoggedInRows(cfg: Config, t: Tables, e: Event)
    requires Possible(cfg, t, e) && e.LoggedIn?
    ensures var after, row, s := Apply(cfg, t, e), t.credentials[e.credential], e.session;
            && row.revokedAt == None && (e.counter > row.signCount || row.signCount == 0)
            && s.id != NIL && s.id !in t.tokens && s.hash != "" && s.address != ""
            && (forall k :: k in t.tokens ==> t.tokens[k].tokenHash != s.hash)
            && after == t.(
                 credentials := t.credentials[e.credential := row.(signCount := e.counter)],
                 tokens := t.tokens[s.id :=
                   TokenRow(s.id, row.userId, s.hash, s.device, s.address, e.now + cfg.refreshTtl, None, e.now)])
  {
  }

  /** A suspected clone revokes the credential, with the new counter if it was acceptable, and every session of its user
      that could still be presented. */
  lemma CloneSuspectedRows(cfg: Config, t: Tables, e: Event)
    requires Possible(cfg, t, e) && e.CloneSuspected?
    ensures var after, row := Apply(cfg, t, e), t.credentials[e.credential];
            && after == t.(credentials := after.credentials, tokens := after.tokens)
            && after.credentials == t.credentials[e.credential :=
                 row.(revokedAt := Some(e.now),
                      signCount := if e.counter > row.signCount || row.signCount == 0 then e.counter
                                   else row.signCount)]
            && after.tokens.Keys == t.tokens.Keys
            && forall k :: k in t.tokens ==>
                 after.tokens[k] ==
                 if t.tokens[k].userId == row.userId && t.tokens[k].revokedAt == None
                    && e.sessionsNow < t.tokens[k].expiresAt
                 then t.tokens[k].(revokedAt := Some(e.sessionsNow)) else t.tokens[k]
  {
  }

  /** A registration uses up its invite and adds one user, one credential, its keys and one session. */
  lemma RegisteredRows(cfg: Config, t: Tables, r: Registration, c: nat)
    requires RegistrationPossible(cfg, t, r) && UniqueIds(t.users)
    requires c < |t.users| && t.users[c].id == t.invites[r.inviteId].createdBy
    ensures var after, invite, s := Register(cfg, t, r), t.invites[r.inviteId], r.session;
            && invite.usedAt == None && r.now <= invite.expiresAt
            && after.users == t.users + [User(r.userId, if t.users[c].invitedBy == None then Admin else Member,
                                              Some(t.users[c].id), r.now)]
            && after.invites == t.invites[r.inviteId := invite.(usedBy := Some(r.userId), usedAt := Some(r.now))]
            && r.credentialId !in t.credentials
            && after.credentials == t.credentials[r.credentialId :=
                 CredentialRow(r.credentialId, r.externalId, r.userId, r.publicKey, r.counter, r.transports, r.now,
                               None)]
            && s.id !in t.tokens
            && after.tokens == t.tokens[s.id :=
                 TokenRow(s.id, r.userId, s.hash, s.device, s.address, r.now + cfg.refreshTtl, None, r.now)]
            && |after.keys| == |t.keys| + |r.materials| && after.keys[..|t.keys|] == t.keys
            && forall i :: 0 <= i < |r.materials| ==>
                 after.keys[|t.keys| + i] ==
                 WrappedKeyRow(r.keyIds[i], r.userId, r.credentialId,
                               if r.materials[i].scope == 0 then Main else Decoy,
                               r.materials[i].wrappedDek, r.materials[i].wrapAlgorithm, r.now)
  {
    var creator := FindUser(t.users, t.invites[r.inviteId].createdBy).value;
    var k :| 0 <= k < |t.users| && t.users[k] == creator;
    assert t.users[k].id == t.users[c].id;
  }

  /** The other events. */
  lemma PlainEventRows(cfg: Config, t: Tables, e: Event)
    requires Possible(cfg, t, e)
    ensures e.RootCreated? ==> t.users == [] && Apply(cfg, t, e) == t.(users := [User(e.rootId, Admin, None, e.now)])
    ensures e.InviteIssued? ==>
              && e.invite.id !in t.invites && e.invite.usedBy == None && e.invite.usedAt == None
              && Apply(cfg, t, e) == t.(invites := t.invites[e.invite.id := e.invite])
    ensures e.SessionRevoked? ==>
              && e.token in t.tokens && t.tokens[e.token].revokedAt == None
              && Apply(cfg, t, e) == t.(tokens := t.tokens[e.token := t.tokens[e.token].(revokedAt := Some(e.now))])
    ensures e.SessionsRevoked? ==>
              var after := Apply(cfg, t, e);
              && after == t.(tokens := after.tokens) && after.tokens.Keys == t.tokens.Keys
              && forall k :: k in t.tokens ==>
                   after.tokens[k] ==
                   if t.tokens[k].userId in e.users && t.tokens[k].revokedAt == None && e.now < t.tokens[k].expiresAt
                   then t.tokens[k].(revokedAt := Some(e.now)) else t.tokens[k]
  {
  }

  // ---- runs ----

  ghost predicate Run(cfg: Config, log: seq<Event>)
    decreases |log|, 0
  {
    log == [] || (Run(cfg, Before(log)) && Possible(cfg, State(cfg, Before(log)), Last(log)))
  }

  ghost function State(cfg: Config, log: seq<Event>): Tables
    requires Run(cfg, log)
    decreases |log|, 1
  {
    if log == [] then EMPTY else Apply(cfg, State(cfg, Before(log)), Last(log))
  }

  function Before(log: seq<Event>): seq<Event>
    requires log != []
  {
    log[..|log| - 1]
  }

  function Last(log: seq<Event>): Event
    requires log != []
  {
    log[|log| - 1]
  }

  // ---- the invariant of every run ----

  predicate UniqueTokens(tokens: map<Id, TokenRow>) {
    && (forall k :: k in tokens ==> tokens[k].id == k)
    && (forall k, l :: k in tokens && l in tokens && tokens[k].tokenHash == tokens[l].tokenHash ==> k == l)
  }

  predicate UniqueCredentials(credentials: map<Id, CredentialRow>) {
    && (forall k :: k in credentials ==> credentials[k].id == k)
    && (forall k, l ::
         k in credentials && l in credentials && credentials[k].externalId == credentials[l].externalId ==> k == l)
  }

  predicate KeyCounts(cfg: Config, credentials: map<Id, CredentialRow>, keys: seq<WrappedKeyRow>) {
    forall k :: k in credentials ==> 0 < |KeysOf(keys, k)| <= cfg.maxWrappedKeys
  }

  ghost predicate Inv(cfg: Config, t: Tables) {
    && TrustInv(t.users, t.invites)
    && ForeignKeysHold(t)
    && KeysDistinct(t.keys)
    && UniqueTokens(t.tokens)
    && UniqueCredentials(t.credentials)
    && KeyCounts(cfg, t.credentials, t.keys)
  }

  /** The references and the indexes, column by column. */
  lemma ReferencesByRow(cfg: Config, t: Tables)
    requires Inv(cfg, t)
    ensures forall k :: k in t.invites ==> exists i :: 0 <= i < |t.users| && t.users[i].id == t.invites[k].createdBy
    ensures forall k :: k in t.credentials ==>
              exists i :: 0 <= i < |t.users| && t.users[i].id == t.credentials[k].userId
    ensures forall k :: k in t.tokens ==> exists i :: 0 <= i < |t.users| && t.users[i].id == t.tokens[k].userId
    ensures forall r :: r in t.keys ==>
              r.credentialId in t.credentials && exists i :: 0 <= i < |t.users| && t.users[i].id == r.userId
    ensures forall k :: k in t.tokens ==> t.tokens[k].id == k
    ensures forall k, l :: k in t.tokens && l in t.tokens && k != l ==> t.tokens[k].tokenHash != t.tokens[l].tokenHash
    ensures forall k, l ::
              k in t.credentials && l in t.credentials && k != l ==>
                t.credentials[k].externalId != t.credentials[l].externalId
    ensures forall i, j :: 0 <= i < j < |t.users| ==> t.users[i].id != t.users[j].id
    ensures forall i, j ::
              0 <= i < j < |t.keys| ==>
                t.keys[i].id != t.keys[j].id &&
                (t.keys[i].credentialId != t.keys[j].credentialId || t.keys[i].scope != t.keys[j].scope)
    ensures forall k :: k in t.credentials ==> exists i :: 0 <= i < |t.keys| && t.keys[i].credentialId == k
  {
    forall k | k in t.credentials ensures exists i :: 0 <= i < |t.keys| && t.keys[i].credentialId == k {
      if forall r :: r in t.keys ==> r.credentialId != k { KeysOfNone(t.keys, k); }
    }
  }

  lemma StoredGrows(users: seq<User>, u: User, id: Id)
    ensures Stored(users + [u], id) <==> Stored(users, id) || id == u.id
  {
    var after := users + [u];
    if Stored(users, id) {
      var i :| 0 <= i < |users| && users[i].id == id;
      assert after[i].id == id;
    }
    assert after[|users|] == u;
  }

  lemma RootKeepsInv(cfg: Config, t: Tables, e: Event)
    requires Inv(cfg, t) && Possible(cfg, t, e) && e.RootCreated?
    ensures Inv(cfg, Apply(cfg, t, e))
  {
    RootKeepsTrust(t.invites, User(e.rootId, Admin, None, e.now));
  }

  lemma InviteKeepsInv(cfg: Config, t: Tables, e: Event)
    requires Inv(cfg, t) && Possible(cfg, t, e) && e.InviteIssued?
    ensures Inv(cfg, Apply(cfg, t, e))
  {
    UnusedInviteKeepsTrust(t.users, t.invites, e.invite);
  }

  lemma RegisteredForeignKeys(cfg: Config, t: Tables, r: Registration)
    requires ForeignKeysHold(t) && RegistrationPossible(cfg, t, r)
    ensures ForeignKeysHold(Register(cfg, t, r))
  {
    var after := Register(cfg, t, r);
    var u := after.users[|t.users|];
    assert after.users == t.users + [u];
    forall id ensures Stored(after.users, id) <==> Stored(t.users, id) || id == r.userId {
      StoredGrows(t.users, u, id);
    }
    assert forall v :: v in after.users ==> v in t.users || v == u;
    forall v | v in after.users ensures InviterStored(after.users, v) {
      if v in t.users { assert InviterStored(t.users, v); }
    }
    assert forall row :: row in after.keys ==> row in t.keys || row in KeyRows(r);
  }

  lemma RegisteredKeys(cfg: Config, t: Tables, r: Registration)
    requires ForeignKeysHold(t) && RegistrationPossible(cfg, t, r)
    ensures KeysOf(t.keys + KeyRows(r), r.credentialId) == KeyRows(r)
    ensures forall k :: k in t.credentials ==> KeysOf(t.keys + KeyRows(r), k) == KeysOf(t.keys, k)
  {
    KeysOfConcat(t.keys, KeyRows(r), r.credentialId);
    KeysOfNone(t.keys, r.credentialId);
    KeysOfAll(KeyRows(r), r.credentialId);
    forall k | k in t.credentials ensures KeysOf(t.keys + KeyRows(r), k) == KeysOf(t.keys, k) {
      KeysOfConcat(t.keys, KeyRows(r), k);
      KeysOfNone(KeyRows(r), k);
    }
  }

  lemma RegisteredTrust(cfg: Config, t: Tables, r: Registration)
    requires TrustInv(t.users, t.invites) && RegistrationPossible(cfg, t, r)
    ensures TrustInv(Register(cfg, t, r).users, Register(cfg, t, r).invites)
  {
    var creator := FindUser(t.users, t.invites[r.inviteId].createdBy).value;
    var c :| 0 <= c < |t.users| && t.users[c] == creator;
    RegistrationKeepsTrust(t.users, t.invites, r.inviteId, Register(cfg, t, r).users[|t.users|], c);
  }

  lemma RegisteredIndexes(cfg: Config, t: Tables, r: Registration)
    requires UniqueTokens(t.tokens) && UniqueCredentials(t.credentials) && RegistrationPossible(cfg, t, r)
    ensures UniqueTokens(Register(cfg, t, r).tokens) && UniqueCredentials(Register(cfg, t, r).credentials)
  {
  }

  lemma RegisteredKeepsInv(cfg: Config, t: Tables, r: Registration)
    requires Inv(cfg, t) && RegistrationPossible(cfg, t, r)
    ensures Inv(cfg, Register(cfg, t, r))
  {
    RegisteredTrust(cfg, t, r);
    RegisteredForeignKeys(cfg, t, r);
    RegisteredIndexes(cfg, t, r);
    RegisteredKeys(cfg, t, r);
  }

  /** The events that touch neither users nor invites nor keys. */
  predicate SessionEvent(e: Event) { !e.RootCreated? && !e.InviteIssued? && !e.Registered? }

  lemma SessionForeignKeys(cfg: Config, t: Tables, e: Event)
    requires ForeignKeysHold(t) && Possible(cfg, t, e) && SessionEvent(e)
    ensures ForeignKeysHold(Apply(cfg, t, e))
  {
  }

  lemma SessionTokens(cfg: Config, t: Tables, e: Event)
    requires UniqueTokens(t.tokens) && Possible(cfg, t, e) && SessionEvent(e)
    ensures UniqueTokens(Apply(cfg, t, e).tokens)
  {
  }

  lemma SessionCredentials(cfg: Config, t: Tables, e: Event)
    requires UniqueCredentials(t.credentials) && KeyCounts(cfg, t.credentials, t.keys)
    requires Possible(cfg, t, e) && SessionEvent(e)
    ensures UniqueCredentials(Apply(cfg, t, e).credentials) && KeyCounts(cfg, Apply(cfg, t, e).credentials, t.keys)
  {
    var after := Apply(cfg, t, e).credentials;
    assert after.Keys == t.credentials.Keys;
    assert forall k :: k in after ==>
      after[k].id == t.credentials[k].id && after[k].externalId == t.credentials[k].externalId;
  }

  lemma SessionKeepsInv(cfg: Config, t: Tables, e: Event)
    requires Inv(cfg, t) && Possible(cfg, t, e) && SessionEvent(e)
    ensures Inv(cfg, Apply(cfg, t, e))
  {
    SessionForeignKeys(cfg, t, e);
    SessionTokens(cfg, t, e);
    SessionCredentials(cfg, t, e);
    var after := Apply(cfg, t, e);
    assert after.users == t.users && after.invites == t.invites && after.keys == t.keys;
  }

  lemma StepKeepsInv(cfg: Config, t: Tables, e: Event)
    requires Inv(cfg, t) && Possible(cfg, t, e)
    ensures Inv(cfg, Apply(cfg, t, e))
  {
    match e
    case RootCreated(_, _) => RootKeepsInv(cfg, t, e);
    case InviteIssued(_) => InviteKeepsInv(cfg, t, e);
    case Registered(r) => RegisteredKeepsInv(cfg, t, r);
    case _ => SessionKeepsInv(cfg, t, e);
  }

  /** In every state of every run the users form one tree with roles by depth, used invites and invited
      users are in bijection, and every reference resolves. */
  lemma {:induction false} RunKeepsInv(cfg: Config, log: seq<Event>)
    requires Run(cfg, log)
    ensures Inv(cfg, State(cfg, log))
    decreases |log|
  {
    if log != [] {
      RunKeepsInv(cfg, Before(log));
      StepKeepsInv(cfg, State(cfg, Before(log)), Last(log));
    }
  }
}
