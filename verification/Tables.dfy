/** The five tables and the meaning of the SQL statements over them. A statement that violates a primary key or
    a unique index has no result; foreign keys are the separate predicate `ForeignKeysHold`, so that both
    immediate and deferred checking can be modelled. */
module Tables {
  import opened Basics
  import opened Domain
  import opened TrustTree

  datatype Tables = Tables(
    users: seq<User>, invites: map<Id, InviteRow>, credentials: map<Id, CredentialRow>,
    keys: seq<WrappedKeyRow>, tokens: map<Id, TokenRow>)

  const EMPTY := Tables([], map[], map[], [], map[])

  predicate InviterStored(users: seq<User>, u: User) {
    u.invitedBy.Some? ==> Stored(users, u.invitedBy.value)
  }

  predicate ForeignKeysHold(t: Tables) {
    && (forall u {:trigger InviterStored(t.users, u)} | u in t.users :: InviterStored(t.users, u))
    && (forall k | k in t.invites ::
          Stored(t.users, t.invites[k].createdBy)
          && (t.invites[k].usedBy.Some? ==> Stored(t.users, t.invites[k].usedBy.value)))
    && (forall k | k in t.credentials :: Stored(t.users, t.credentials[k].userId))
    && (forall r | r in t.keys :: Stored(t.users, r.userId) && r.credentialId in t.credentials)
    && (forall k | k in t.tokens :: Stored(t.users, t.tokens[k].userId))
  }

  // ---- users ----

  function FindUser(users: seq<User>, id: Id): (r: Option<User>)
    ensures r.Some? <==> Stored(users, id)
    ensures r.Some? ==> r.value in users && r.value.id == id
  {
    if users == [] then None
    else if users[0].id == id then Some(users[0])
    else
      assert forall i :: 0 < i < |users| ==> users[i] == users[1..][i - 1];
      FindUser(users[1..], id)
  }

  /** `SELECT ... WHERE invited_by IS NULL LIMIT 1`. */
  function FirstRoot(users: seq<User>): (r: Option<User>)
    ensures r.Some? ==> r.value in users && r.value.IsRoot()
    ensures r.None? ==> forall u :: u in users ==> !u.IsRoot()
  {
    if users == [] then None
    else if users[0].IsRoot() then Some(users[0])
    else FirstRoot(users[1..])
  }

  /** A plain insert: the primary key and the single-root index apply. */
  function InsertUser(t: Tables, u: User): Option<Tables> {
    if Stored(t.users, u.id) || (u.IsRoot() && exists v :: v in t.users && v.IsRoot()) then None
    else Some(t.(users := t.users + [u]))
  }

  predicate OneRoot(users: seq<User>) {
    forall i, j :: 0 <= i < j < |users| ==> users[i].invitedBy.Some? || users[j].invitedBy.Some?
  }

  lemma UniqueWithOneMore(users: seq<User>, u: User)
    requires UniqueIds(users)
    ensures UniqueIds(users + [u]) <==> !Stored(users, u.id)
  {
    var after := users + [u];
    if Stored(users, u.id) {
      var i :| 0 <= i < |users| && users[i].id == u.id;
      assert after[i].id == after[|users|].id;
    }
  }

  lemma OneRootWithOneMore(users: seq<User>, u: User)
    requires OneRoot(users)
    ensures OneRoot(users + [u]) <==> !(u.IsRoot() && exists v :: v in users && v.IsRoot())
  {
    var after := users + [u];
    if u.IsRoot() && exists v :: v in users && v.IsRoot() {
      var v :| v in users && v.IsRoot();
      var i :| 0 <= i < |users| && users[i] == v;
      assert after[i] == v && after[|users|] == u;
    } else {
      forall i, j | 0 <= i < j < |after| ensures after[i].invitedBy.Some? || after[j].invitedBy.Some? {
        assert after[i] == users[i] && users[i] in users;
      }
    }
  }

  /** An insert is refused exactly when the ids would not be unique or there would be two roots. */
  lemma InsertUserKeepsIndexes(t: Tables, u: User)
    requires UniqueIds(t.users) && OneRoot(t.users)
    ensures InsertUser(t, u).Some? <==> UniqueIds(t.users + [u]) && OneRoot(t.users + [u])
    ensures InsertUser(t, u).Some? ==> InsertUser(t, u).value == t.(users := t.users + [u])
  {
    UniqueWithOneMore(t.users, u);
    OneRootWithOneMore(t.users, u);
  }

  // ---- upserts: on an existing id only the named columns change ----

  predicate CodeTaken(invites: map<Id, InviteRow>, codeHash: string) {
    exists k :: k in invites && invites[k].codeHash == codeHash
  }

  function UpsertInvite(t: Tables, row: InviteRow): Option<Tables> {
    if row.id in t.invites then
      Some(t.(invites := t.invites[row.id := t.invites[row.id].(usedBy := row.usedBy, usedAt := row.usedAt)]))
    else if CodeTaken(t.invites, row.codeHash) then None
    else Some(t.(invites := t.invites[row.id := row]))
  }

  /** A new invite is refused exactly when two would have one code; on a stored one two columns change. */
  lemma UpsertInviteKeepsIndex(t: Tables, row: InviteRow)
    ensures UpsertInvite(t, row).None? <==>
            row.id !in t.invites && exists k :: k in t.invites && t.invites[k].codeHash == row.codeHash
    ensures UpsertInvite(t, row).Some? ==>
              var after := UpsertInvite(t, row).value;
              && after == t.(invites := after.invites) && after.invites.Keys == t.invites.Keys + {row.id}
              && (forall k :: k in t.invites && k != row.id ==> after.invites[k] == t.invites[k])
              && (row.id !in t.invites ==> after.invites[row.id] == row)
              && (row.id in t.invites ==>
                    var was, got := t.invites[row.id], after.invites[row.id];
                    && got.usedBy == row.usedBy && got.usedAt == row.usedAt && got.id == was.id
                    && got.createdBy == was.createdBy && got.codeHash == was.codeHash
                    && got.expiresAt == was.expiresAt && got.createdAt == was.createdAt)
  {
  }

  function UpsertCredential(t: Tables, row: CredentialRow): Option<Tables> {
    if row.id in t.credentials then
      Some(t.(credentials := t.credentials[row.id :=
                t.credentials[row.id].(signCount := row.signCount, revokedAt := row.revokedAt)]))
    else if exists k :: k in t.credentials && t.credentials[k].externalId == row.externalId then None
    else Some(t.(credentials := t.credentials[row.id := row]))
  }

  /** A new credential is refused exactly when two would have one external id; on a stored one two columns change. */
  lemma UpsertCredentialKeepsIndex(t: Tables, row: CredentialRow)
    ensures UpsertCredential(t, row).None? <==>
            row.id !in t.credentials && exists k :: k in t.credentials && t.credentials[k].externalId == row.externalId
    ensures UpsertCredential(t, row).Some? ==>
              var after := UpsertCredential(t, row).value;
              && after == t.(credentials := after.credentials)
              && after.credentials.Keys == t.credentials.Keys + {row.id}
              && (forall k :: k in t.credentials && k != row.id ==> after.credentials[k] == t.credentials[k])
              && (row.id !in t.credentials ==> after.credentials[row.id] == row)
              && (row.id in t.credentials ==>
                    var was, got := t.credentials[row.id], after.credentials[row.id];
                    && got.signCount == row.signCount && got.revokedAt == row.revokedAt && got.id == was.id
                    && got.externalId == was.externalId && got.userId == was.userId && got.publicKey == was.publicKey
                    && got.transports == was.transports && got.createdAt == was.createdAt)
  {
  }

  predicate HashTaken(tokens: map<Id, TokenRow>, hash: string) {
    exists k :: k in tokens && tokens[k].tokenHash == hash
  }

  function UpsertToken(t: Tables, row: TokenRow): Option<Tables> {
    if row.id in t.tokens then
      Some(t.(tokens := t.tokens[row.id := t.tokens[row.id].(revokedAt := row.revokedAt)]))
    else if HashTaken(t.tokens, row.tokenHash) then None
    else Some(t.(tokens := t.tokens[row.id := row]))
  }

  /** A new token is refused exactly when two would have one hash; on a stored one only `revoked_at` changes. */
  lemma UpsertTokenKeepsIndex(t: Tables, row: TokenRow)
    ensures UpsertToken(t, row).None? <==>
            row.id !in t.tokens && exists k :: k in t.tokens && t.tokens[k].tokenHash == row.tokenHash
    ensures UpsertToken(t, row).Some? ==>
              var after := UpsertToken(t, row).value;
              && after == t.(tokens := after.tokens) && after.tokens.Keys == t.tokens.Keys + {row.id}
              && (forall k :: k in t.tokens && k != row.id ==> after.tokens[k] == t.tokens[k])
              && (row.id !in t.tokens ==> after.tokens[row.id] == row)
              && (row.id in t.tokens ==>
                    var was, got := t.tokens[row.id], after.tokens[row.id];
                    && got.revokedAt == row.revokedAt && got.id == was.id && got.userId == was.userId
                    && got.tokenHash == was.tokenHash && got.deviceInfo == was.deviceInfo
                    && got.ipAddress == was.ipAddress && got.expiresAt == was.expiresAt
                    && got.createdAt == was.createdAt)
  {
  }

  // ---- wrapped keys ----

  predicate KeysDistinct(keys: seq<WrappedKeyRow>) {
    forall i, j :: 0 <= i < j < |keys| ==>
      keys[i].id != keys[j].id
      && !(keys[i].credentialId == keys[j].credentialId && keys[i].scope == keys[j].scope)
  }

  /** A bulk copy: the primary key and the index on (credential, scope) apply to all rows together. */
  function CopyKeys(t: Tables, rows: seq<WrappedKeyRow>): Option<Tables> {
    if KeysDistinct(t.keys + rows) then Some(t.(keys := t.keys + rows)) else None
  }

  /** A copy is refused exactly when afterwards two keys would have one id, or one credential and scope. */
  lemma CopyKeepsIndexes(t: Tables, rows: seq<WrappedKeyRow>)
    ensures CopyKeys(t, rows).None? <==>
            exists i, j :: 0 <= i < j < |t.keys + rows| &&
              var a, b := (t.keys + rows)[i], (t.keys + rows)[j];
              a.id == b.id || (a.credentialId == b.credentialId && a.scope == b.scope)
    ensures CopyKeys(t, rows).Some? ==> CopyKeys(t, rows).value == t.(keys := t.keys + rows)
  {
  }

  function KeysOf(keys: seq<WrappedKeyRow>, credentialId: Id): seq<WrappedKeyRow> {
    if keys == [] then []
    else (if keys[0].credentialId == credentialId then [keys[0]] else []) + KeysOf(keys[1..], credentialId)
  }

  lemma {:induction false} KeysOfConcat(a: seq<WrappedKeyRow>, b: seq<WrappedKeyRow>, c: Id)
    ensures KeysOf(a + b, c) == KeysOf(a, c) + KeysOf(b, c)
  {
    if a == [] {
      assert a + b == b;
    } else {
      assert (a + b)[1..] == a[1..] + b;
      KeysOfConcat(a[1..], b, c);
    }
  }

  lemma {:induction false} KeysOfAll(rows: seq<WrappedKeyRow>, c: Id)
    requires forall r :: r in rows ==> r.credentialId == c
    ensures KeysOf(rows, c) == rows
  {
    if rows != [] {
      KeysOfAll(rows[1..], c);
      assert rows == [rows[0]] + rows[1..];
    }
  }

  lemma {:induction false} KeysOfNone(rows: seq<WrappedKeyRow>, c: Id)
    requires forall r :: r in rows ==> r.credentialId != c
    ensures KeysOf(rows, c) == []
  {
    if rows != [] {
      KeysOfNone(rows[1..], c);
    }
  }

  function Materials(rows: seq<WrappedKeyRow>): (r: seq<KeyMaterial>)
    ensures |r| == |rows|
  {
    seq(|rows|, i requires 0 <= i < |rows| => MaterialOf(rows[i]))
  }

  // ---- refresh tokens ----

  /** The rows `ListActiveRefreshTokensByUserIDs` selects. */
  predicate Active(row: TokenRow, users: set<Id>, now: Time) {
    row.userId in users && row.revokedAt.None? && row.expiresAt > now
  }

  function RevokeActive(tokens: map<Id, TokenRow>, users: set<Id>, now: Time): map<Id, TokenRow> {
    map k | k in tokens :: if Active(tokens[k], users, now) then tokens[k].(revokedAt := Some(now)) else tokens[k]
  }

  /** Exactly the tokens of the users that could still be presented get the time; nothing else changes. */
  lemma RevocationByRow(tokens: map<Id, TokenRow>, users: set<Id>, now: Time)
    ensures var after := RevokeActive(tokens, users, now);
            && after.Keys == tokens.Keys
            && forall k :: k in tokens ==>
                 after[k] == if tokens[k].userId in users && tokens[k].revokedAt == None && now < tokens[k].expiresAt
                             then tokens[k].(revokedAt := Some(now)) else tokens[k]
  {
  }

  /** A revocation of the active tokens leaves the users none that is valid then or later. */
  ghost predicate NoneValidFrom(tokens: map<Id, TokenRow>, users: set<Id>, from: Time) {
    forall k, later | k in tokens && tokens[k].userId in users && later >= from :: !tokens[k].IsValid(later)
  }

  /** Every token of theirs is revoked or has expired by then. */
  lemma NoneValidExactly(tokens: map<Id, TokenRow>, users: set<Id>, from: Time)
    ensures NoneValidFrom(tokens, users, from) <==>
            forall k :: k in tokens && tokens[k].userId in users ==>
              tokens[k].revokedAt.Some? || tokens[k].expiresAt <= from
  {
    if NoneValidFrom(tokens, users, from) {
      forall k | k in tokens && tokens[k].userId in users
        ensures tokens[k].revokedAt.Some? || tokens[k].expiresAt <= from
      {
        assert !tokens[k].IsValid(from);
      }
    }
  }

  lemma RevokingLeavesNoneValid(tokens: map<Id, TokenRow>, users: set<Id>, now: Time)
    ensures NoneValidFrom(RevokeActive(tokens, users, now), users, now)
  {
  }

  /** The tokens after a rotation: the spent one revoked, its successor added. */
  function AfterRotation(tokens: map<Id, TokenRow>, spent: Id, newId: Id, newHash: string, now: Time): map<Id, TokenRow>
    requires spent in tokens
  {
    tokens[spent := tokens[spent].(revokedAt := Some(now))]
          [newId := tokens[spent].(id := newId, tokenHash := newHash, revokedAt := None, createdAt := now)]
  }

  // ---- invites ----

  /** The rows `CountActiveInvitesByUser` counts. */
  function ActiveInvites(invites: map<Id, InviteRow>, creator: Id, now: Time): set<Id> {
    set k | k in invites && invites[k].createdBy == creator && invites[k].usedAt.None? && invites[k].expiresAt > now
  }

  /** The count is of the creator's invites that are neither used nor expired. */
  lemma CountedExactly(invites: map<Id, InviteRow>, creator: Id, now: Time, k: Id)
    ensures k in ActiveInvites(invites, creator, now) <==>
            k in invites && invites[k].createdBy == creator && invites[k].usedAt == None && now < invites[k].expiresAt
  {
  }

  /** Storing an open invite of the creator raises the count by one; a used, expired or foreign one leaves it. */
  lemma NewInviteCounts(invites: map<Id, InviteRow>, row: InviteRow, creator: Id, t: Time)
    requires row.id !in invites
    ensures var before, after := ActiveInvites(invites, creator, t), ActiveInvites(invites[row.id := row], creator, t);
            && (row.usedAt.Some? || row.expiresAt <= t || row.createdBy != creator ==> |after| == |before|)
            && (row.usedAt == None && t < row.expiresAt && row.createdBy == creator ==> |after| == |before| + 1)
  {
    var before, after := ActiveInvites(invites, creator, t), ActiveInvites(invites[row.id := row], creator, t);
    assert after == if row.id in after then before + {row.id} else before;
  }

  /** A creator whose invites are all used or expired has none open. */
  lemma NoneOpen(invites: map<Id, InviteRow>, creator: Id, now: Time)
    requires forall k :: k in invites && invites[k].createdBy == creator ==>
               invites[k].usedAt.Some? || invites[k].expiresAt <= now
    ensures |ActiveInvites(invites, creator, now)| == 0
  {
    assert ActiveInvites(invites, creator, now) == {};
  }
}
