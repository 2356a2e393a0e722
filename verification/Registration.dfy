/** The steps of `FinishInviteRegistration`, each inside the open transaction. */
module RegistrationSteps {
  import opened Basics
  import opened Domain
  import opened TrustTree
  import opened Tables
  import opened History
  import opened Environment
  import opened Sessions

  /** What `Registrator.Finish` answers: the user id is the candidate drawn when the registration began. */
  datatype RegistrationResult = RegistrationResult(
    userId: Id, inviteId: Id, externalId: string, publicKey: string, transports: seq<string>, counter: uint32)

  predicate InvitesById(invites: map<Id, InviteRow>) {
    forall k :: k in invites ==> invites[k].id == k
  }

  /** Why an invite cannot be redeemed now, if so. */
  function InviteAnswer(invites: map<Id, InviteRow>, id: Id, now: Time): Option<Error> {
    if id !in invites then Some(InviteNotFound)
    else if invites[id].IsUsed() then Some(InviteAlreadyUsed)
    else if invites[id].IsExpired(now) then Some(InviteExpired)
    else None
  }

  /** An unknown invite is told apart first, then a used one, then one that has expired; it can be redeemed up to and at
      the time it expires. */
  lemma InviteAnswerByRow(invites: map<Id, InviteRow>, id: Id, now: Time)
    ensures id !in invites ==> InviteAnswer(invites, id, now) == Some(InviteNotFound)
    ensures id in invites && invites[id].usedAt.Some? ==> InviteAnswer(invites, id, now) == Some(InviteAlreadyUsed)
    ensures id in invites && invites[id].usedAt == None ==>
              InviteAnswer(invites, id, now) == if now <= invites[id].expiresAt then None else Some(InviteExpired)
  {
  }

  function AfterRedemption(t: Tables, id: Id, userId: Id, now: Time): Tables
    requires id in t.invites
  {
    t.(invites := t.invites[id := t.invites[id].(usedBy := Some(userId), usedAt := Some(now))])
  }

  /** The invite row is locked, redeemed in memory and saved with the new user's id, before that user exists. */
  method RedeemInvite(env: Env, inviteId: Id, userId: Id, now: Time) returns (r: Result<Invite, Error>)
    requires env.db.tx.Some? && env.db.rules == SchemaRules(env.cfg.deferForeignKeys) && InvitesById(env.View().invites)
    requires env.rt.Fresh(env.View())
    modifies env.db
    ensures Kept(old(env.db.Conn()), env.db.Conn(), r.Ok?)
    ensures r.Ok? ==>
              && fresh(r.value) && InviteAnswer(old(env.View()).invites, inviteId, now) == None
              && r.value.createdBy == old(env.View()).invites[inviteId].createdBy
              && env.View() == AfterRedemption(old(env.View()), inviteId, userId, now)
              && (env.cfg.deferForeignKeys || ForeignKeysHold(env.View()))
              && env.rt.Fresh(env.View())
    ensures r.Err? ==>
              r.error in {Infrastructure, Constraint} ||
              InviteAnswer(old(env.View()).invites, inviteId, now) == Some(r.error)
    ensures old(env.db.Conn().Faultless() && env.db.Conn().Ready()) ==>
              var answer := InviteAnswer(old(env.View()).invites, inviteId, now);
              if answer.Some? then r == Err(answer.value)
              else if env.cfg.deferForeignKeys
                      || ForeignKeysHold(AfterRedemption(old(env.View()), inviteId, userId, now)) then r.Ok?
              else r == Err(Constraint)
  {
    var err := env.db.Query();
    if err.Some? {
      return Err(Infrastructure);
    }
    var rows := env.View().invites;
    if inviteId !in rows {
      return Err(InviteNotFound);
    }
    var invite := new Invite.Reconstruct(rows[inviteId]);
    var refused := invite.Redeem(userId, now);
    if refused.Some? {
      return Err(refused.value);
    }
    var row := invite.Row();
    env.rt.InviteRedeemed(env.rt.idsDrawn, env.rt.tokensDrawn, env.View(), row);
    err := env.db.Exec(t => UpsertInvite(t, row));
    if err.Some? {
      return Err(err.value);
    }
    return Ok(invite);
  }

  method FindInviteCreator(env: Env, creatorId: Id) returns (r: Result<User, Error>)
    modifies env.db
    ensures Kept(old(env.db.Conn()), env.db.Conn(), r.Ok?) && env.View() == old(env.View())
    ensures r.Ok? ==> Stored(env.View().users, creatorId) && r.value == FindUser(env.View().users, creatorId).value
    ensures r.Err? ==> r.error == Infrastructure || (r.error == CreatorNotFound && !Stored(env.View().users, creatorId))
    ensures old(env.db.Conn().Faultless() && env.db.Conn().Ready()) ==> (r.Err? ==> r.error == CreatorNotFound)
  {
    var err := env.db.Query();
    if err.Some? {
      return Err(Infrastructure);
    }
    var u := FindUser(env.View().users, creatorId);
    return if u.None? then Err(CreatorNotFound) else Ok(u.value);
  }

  // ---- user ----

  method CreateUser(env: Env, userId: Id, creator: User, now: Time) returns (err: Option<Error>)
    requires env.db.tx.Some? && env.db.rules == SchemaRules(env.cfg.deferForeignKeys)
    requires env.rt.Fresh(env.View())
    modifies env.db
    ensures Kept(old(env.db.Conn()), env.db.Conn(), err.None?)
    ensures err.None? ==>
              && userId != NIL && creator.id != NIL && !Stored(old(env.View()).users, userId)
              && env.rt.Fresh(env.View())
              && env.View() == old(env.View()).(users :=
                   old(env.View()).users + [User(userId, creator.NextInviteeRole(), Some(creator.id), now)])
    ensures err.Some? ==>
              err.value in {Infrastructure, Constraint} ||
              (err.value == InvalidArgument && (userId == NIL || creator.id == NIL))
    ensures old(env.db.Conn().Faultless() && env.db.Conn().Ready()) ==>
              && (userId == NIL || creator.id == NIL ==> err == Some(InvalidArgument))
              && (userId != NIL && creator.id != NIL && Stored(old(env.View()).users, userId) ==>
                    err == Some(Constraint))
              && (userId != NIL && creator.id != NIL && !Stored(old(env.View()).users, userId)
                  && env.cfg.deferForeignKeys ==>
                    err.None?)
  {
    var u := User.New(userId, creator.NextInviteeRole(), creator.id, now);
    if u.Err? {
      return Some(u.error);
    }
    err := env.db.Exec(t => InsertUser(t, u.value));
  }

  // ---- credential ----

  function CredentialFor(res: RegistrationResult, id: Id, now: Time): CredentialRow {
    CredentialRow(id, res.externalId, res.userId, res.publicKey, res.counter, res.transports, now, None)
  }

  predicate ExternalIdTaken(credentials: map<Id, CredentialRow>, externalId: string) {
    exists k :: k in credentials && credentials[k].externalId == externalId
  }

  method CreateCredential(env: Env, res: RegistrationResult, now: Time) returns (r: Result<Id, Error>)
    requires env.db.tx.Some? && env.db.rules == SchemaRules(env.cfg.deferForeignKeys)
    requires env.rt.Valid() && env.rt.Fresh(env.View())
    modifies env.db, env.rt
    ensures Kept(old(env.db.Conn()), env.db.Conn(), r.Ok?) && OnlyDraws(env.rt)
    ensures env.rt.failures == old(env.rt.failures)
    ensures r.Ok? ==>
              && r.value != NIL && r.value !in old(env.View()).credentials
              && !ExternalIdTaken(old(env.View()).credentials, res.externalId)
              && res.externalId != "" && res.publicKey != "" && res.userId != NIL
              && env.View() == old(env.View()).(credentials :=
                   old(env.View()).credentials[r.value := CredentialFor(res, r.value, now)])
              && env.rt.Fresh(env.View())
    ensures r.Err? ==>
              r.error in {Infrastructure, Constraint} ||
              (r.error == InvalidArgument && (res.userId == NIL || res.externalId == "" || res.publicKey == ""))
    ensures old(env.db.Conn().Faultless() && env.db.Conn().Ready()) && env.cfg.deferForeignKeys && res.userId != NIL ==>
              if res.externalId == "" || res.publicKey == "" then r == Err(InvalidArgument)
              else if ExternalIdTaken(old(env.View()).credentials, res.externalId) then r == Err(Constraint)
              else r.Ok?
  {
    var id := env.rt.NewID();
    var made := Credential.New(id, res.externalId, res.userId, res.publicKey, res.transports, now);
    if made.Err? {
      return Err(made.error);
    }
    var countErr := made.value.SetSignCount(res.counter);
    match countErr {
      case Some(error) => return Err(error);
      case None =>
    }
    var row := made.value.Row();
    env.rt.CredentialStored(old(env.rt.idsDrawn), env.rt.tokensDrawn, env.View(), row);
    var err := env.db.Exec(t => UpsertCredential(t, row));
    if err.Some? {
      return Err(err.value);
    }
    return Ok(id);
  }

  // ---- wrapped keys ----

  /** The source of a bulk copy: `Next` moves to the next row, except that the first call only says whether
      there is one; `Values` is the current row. */
  class KeyIterator {
    var rows: seq<WrappedKeyRow>
    var skippedFirstNextCall: bool

    constructor (rows: seq<WrappedKeyRow>)
      ensures this.rows == rows && !skippedFirstNextCall
    {
      this.rows, skippedFirstNextCall := rows, false;
    }

    /** The rows `Values` has still to give after the current position. */
    function Ahead(): seq<WrappedKeyRow>
      reads this
    {
      if skippedFirstNextCall && rows != [] then rows[1..] else rows
    }

    method Next() returns (more: bool)
      modifies this
      ensures more <==> old(Ahead()) != []
      ensures more ==> skippedFirstNextCall && rows == old(Ahead()) && Ahead() == old(Ahead())[1..]
      ensures !more ==> Ahead() == []
    {
      if |rows| == 0 {
        return false;
      }
      if !skippedFirstNextCall {
        skippedFirstNextCall := true;
        return true;
      }
      rows := rows[1..];
      return |rows| > 0;
    }

    function Values(): WrappedKeyRow
      requires rows != []
      reads this
    {
      rows[0]
    }
  }

  /** The copy loop of the driver sends every row once, in order. */
  method Drain(source: KeyIterator) returns (sent: seq<WrappedKeyRow>)
    modifies source
    ensures sent == old(source.Ahead())
  {
    sent := [];
    var more := source.Next();
    while more
      invariant more ==> source.rows != [] && source.skippedFirstNextCall
      invariant old(source.Ahead()) == sent + (if more then source.rows else [])
      decreases |source.rows| + (if more then 1 else 0)
    {
      assert source.rows == [source.rows[0]] + source.rows[1..];
      sent := sent + [source.Values()];
      more := source.Next();
    }
  }

  method CopyWrappedKeys(env: Env, rows: seq<WrappedKeyRow>) returns (err: Option<Error>)
    requires env.db.tx.Some? && env.db.rules == SchemaRules(env.cfg.deferForeignKeys)
    modifies env.db
    ensures Kept(old(env.db.Conn()), env.db.Conn(), err.None?)
    ensures err.None? ==> KeysDistinct(old(env.View()).keys + rows)
                          && env.View() == old(env.View()).(keys := old(env.View()).keys + rows)
    ensures err.Some? ==> err.value in {Infrastructure, Constraint}
    ensures old(env.db.Conn().Faultless() && env.db.Conn().Ready()) && env.cfg.deferForeignKeys ==>
              err == if KeysDistinct(old(env.View()).keys + rows) then None else Some(Constraint)
  {
    var source := new KeyIterator(rows);
    var sent := Drain(source);
    err := env.db.Exec(t => CopyKeys(t, sent));
  }

  method SaveWrappedKeys(env: Env, userId: Id, credentialId: Id, inputs: seq<KeyMaterial>, now: Time)
    returns (err: Option<Error>, ghost ids: seq<Id>)
    requires env.db.tx.Some? && env.db.rules == SchemaRules(env.cfg.deferForeignKeys)
    requires env.rt.Valid() && env.rt.Fresh(env.View()) && userId != NIL && credentialId != NIL
    modifies env.db, env.rt
    ensures Kept(old(env.db.Conn()), env.db.Conn(), err.None?) && OnlyDraws(env.rt)
    ensures env.rt.failures == old(env.rt.failures)
    ensures |ids| == |inputs| && forall i :: 0 <= i < |ids| ==> ids[i] == env.rt.idAt(old(env.rt.idsDrawn) + i)
    ensures var rows := KeyRowsFor(userId, credentialId, ids, inputs, now);
            && (err.None? ==>
                  && (forall m :: m in inputs ==> m.Valid())
                  && KeysDistinct(old(env.View()).keys + rows)
                  && env.View() == old(env.View()).(keys := old(env.View()).keys + rows)
                  && env.rt.Fresh(env.View()))
            && (old(env.db.Conn().Faultless() && env.db.Conn().Ready()) && env.cfg.deferForeignKeys ==>
                  err == if exists m :: m in inputs && !m.Valid() then Some(InvalidArgument)
                         else if KeysDistinct(old(env.View()).keys + rows) then None
                         else Some(Constraint))
    ensures err.Some? ==>
              err.value in {Infrastructure, Constraint} ||
              (err.value == InvalidArgument && exists m :: m in inputs && !m.Valid())
  {
    ids := seq(|inputs|, i requires 0 <= i => env.rt.idAt(old(env.rt.idsDrawn) + i));
    var wrapped: seq<WrappedKey> := [];
    for i := 0 to |inputs|
      invariant env.rt.idsDrawn == old(env.rt.idsDrawn) + i
      invariant env.rt.tokensDrawn == old(env.rt.tokensDrawn) && env.rt.ticks == old(env.rt.ticks)
      invariant env.rt.failures == old(env.rt.failures) && env.db.Conn() == old(env.db.Conn())
      invariant |wrapped| == i
      invariant forall j :: 0 <= j < i ==>
                  wrapped[j] == WrappedKey(ids[j], userId, credentialId, inputs[j], now) && inputs[j].Valid()
    {
      var id := env.rt.NewID();
      var k := WrappedKey.New(id, userId, credentialId, inputs[i], now);
      if k.Err? {
        return Some(k.error), ids;
      }
      wrapped := wrapped + [k.value];
    }
    var params: seq<WrappedKeyRow> := [];
    for i := 0 to |wrapped|
      invariant |params| == i && forall j :: 0 <= j < i ==> params[j] == KeyToRow(wrapped[j])
    {
      params := params + [KeyToRow(wrapped[i])];
    }
    assert params == KeyRowsFor(userId, credentialId, ids, inputs, now);
    env.rt.KeysStored(old(env.rt.idsDrawn), env.rt.tokensDrawn, env.View(), params);
    err := CopyWrappedKeys(env, params);
  }

  // ---- the whole body ----

  function Admitted(t: Tables, res: RegistrationResult, now: Time): Tables
    requires res.inviteId in t.invites && Stored(t.users, t.invites[res.inviteId].createdBy)
  {
    var creator := FindUser(t.users, t.invites[res.inviteId].createdBy).value;
    AfterRedemption(t, res.inviteId, res.userId, now).(users :=
      t.users + [User(res.userId, creator.NextInviteeRole(), Some(creator.id), now)])
  }

  /** The invite and its creator allow this user to be added. */
  predicate Admissible(t: Tables, res: RegistrationResult, now: Time) {
    && InviteAnswer(t.invites, res.inviteId, now) == None
    && Stored(t.users, t.invites[res.inviteId].createdBy) && t.invites[res.inviteId].createdBy != NIL
    && res.userId != NIL && !Stored(t.users, res.userId)
  }

  /** Why the user cannot be added, if so, apart from failures. Under immediate checking the redeemed invite already
      has to name a stored user. */
  function AdmissionAnswer(cfg: Config, t: Tables, res: RegistrationResult, now: Time): Option<Error> {
    if InviteAnswer(t.invites, res.inviteId, now).Some? then InviteAnswer(t.invites, res.inviteId, now)
    else if !cfg.deferForeignKeys && !Stored(t.users, res.userId) then Some(Constraint)
    else if !Stored(t.users, t.invites[res.inviteId].createdBy) then Some(CreatorNotFound)
    else if res.userId == NIL || t.invites[res.inviteId].createdBy == NIL then Some(InvalidArgument)
    else if Stored(t.users, res.userId) then Some(Constraint)
    else None
  }

  lemma RedemptionForeignKeys(t: Tables, k: Id, userId: Id, now: Time)
    requires ForeignKeysHold(t) && k in t.invites
    ensures ForeignKeysHold(AfterRedemption(t, k, userId, now)) <==> Stored(t.users, userId)
  {
    var after := AfterRedemption(t, k, userId, now);
    assert after.invites[k].usedBy == Some(userId);
    assert forall u :: u in t.users ==> InviterStored(t.users, u);
  }

  /** Redeeming and adding the user. When foreign keys are checked immediately this never succeeds: the
      redeemed invite would have to name a stored user, and then that user could not be added. */
  method AdmitUser(env: Env, res: RegistrationResult, now: Time) returns (err: Option<Error>)
    requires env.db.tx.Some? && env.db.rules == SchemaRules(env.cfg.deferForeignKeys) && InvitesById(env.View().invites)
    requires env.rt.Fresh(env.View()) && ForeignKeysHold(env.View())
    modifies env.db
    ensures Kept(old(env.db.Conn()), env.db.Conn(), err.None?)
    ensures err.None? ==>
              && env.cfg.deferForeignKeys && Admissible(old(env.View()), res, now)
              && env.View() == Admitted(old(env.View()), res, now) && env.rt.Fresh(env.View())
    ensures err.Some? ==>
              err.value in {Infrastructure, Constraint} || err == AdmissionAnswer(env.cfg, old(env.View()), res, now)
    ensures old(env.db.Conn().Faultless() && env.db.Conn().Ready()) ==>
              err == AdmissionAnswer(env.cfg, old(env.View()), res, now)
  {
    ghost var t := env.View();
    if res.inviteId in t.invites { RedemptionForeignKeys(t, res.inviteId, res.userId, now); }
    var invite := RedeemInvite(env, res.inviteId, res.userId, now);
    if invite.Err? {
      return Some(invite.error);
    }
    var creator := FindInviteCreator(env, invite.value.createdBy);
    if creator.Err? {
      return Some(creator.error);
    }
    err := CreateUser(env, res.userId, creator.value, now);
  }

  function RegistrationOf(res: RegistrationResult, credentialId: Id, keyIds: seq<Id>, inputs: seq<KeyMaterial>,
                          s: NewSession, now: Time): Registration {
    Registration(res.userId, res.inviteId, res.externalId, res.publicKey, res.transports, res.counter,
                 credentialId, keyIds, inputs, s, now)
  }

  predicate ScopesDistinct(inputs: seq<KeyMaterial>) {
    forall i, j :: 0 <= i < j < |inputs| ==> ScopeToColumn(inputs[i].scope) != ScopeToColumn(inputs[j].scope)
  }

  /** What a registration needs beyond an admissible user. */
  predicate Equippable(t: Tables, res: RegistrationResult, inputs: seq<KeyMaterial>) {
    && res.externalId != "" && res.publicKey != "" && !ExternalIdTaken(t.credentials, res.externalId)
    && (forall m :: m in inputs ==> m.Valid()) && ScopesDistinct(inputs)
  }

  /** Why its credential and keys cannot be added, if so, apart from failures. */
  function EquipmentAnswer(t: Tables, res: RegistrationResult, inputs: seq<KeyMaterial>): Option<Error> {
    if res.externalId == "" || res.publicKey == "" then Some(InvalidArgument)
    else if ExternalIdTaken(t.credentials, res.externalId) then Some(Constraint)
    else if exists m :: m in inputs && !m.Valid() then Some(InvalidArgument)
    else if !ScopesDistinct(inputs) then Some(Constraint)
    else None
  }

  lemma NewKeysDistinct(env: Env, t: Tables, userId: Id, credentialId: Id, ids: seq<Id>, inputs: seq<KeyMaterial>,
      now: Time)
    requires env.rt.Valid() && KeysDistinct(t.keys) && |ids| == |inputs| && ScopesDistinct(inputs)
    requires forall r :: r in t.keys ==> r.credentialId != credentialId && r.id !in ids
    requires forall i, j :: 0 <= i < j < |ids| ==> ids[i] != ids[j]
    ensures KeysDistinct(t.keys + KeyRowsFor(userId, credentialId, ids, inputs, now))
  {
    var rows := KeyRowsFor(userId, credentialId, ids, inputs, now);
    var all := t.keys + rows;
    forall i, j | 0 <= i < j < |all|
      ensures all[i].id != all[j].id && !(all[i].credentialId == all[j].credentialId && all[i].scope == all[j].scope)
    {
      if i < |t.keys| {
        assert all[i] in t.keys;
        if j >= |t.keys| { assert all[j] == rows[j - |t.keys|] && rows[j - |t.keys|].id == ids[j - |t.keys|]; }
      } else {
        assert all[i] == rows[i - |t.keys|] && all[j] == rows[j - |t.keys|];
      }
    }
  }

  lemma DistinctScopesNeeded(t: Tables, userId: Id, credentialId: Id, ids: seq<Id>, inputs: seq<KeyMaterial>, now: Time)
    requires |ids| == |inputs| && KeysDistinct(t.keys + KeyRowsFor(userId, credentialId, ids, inputs, now))
    ensures ScopesDistinct(inputs)
  {
    var rows := KeyRowsFor(userId, credentialId, ids, inputs, now);
    var n := |t.keys|;
    forall i, j | 0 <= i < j < |inputs| ensures ScopeToColumn(inputs[i].scope) != ScopeToColumn(inputs[j].scope) {
      assert (t.keys + rows)[n + i] == rows[i] && (t.keys + rows)[n + j] == rows[j];
    }
  }

  lemma AdmittedForeignKeys(t: Tables, res: RegistrationResult, now: Time)
    requires ForeignKeysHold(t) && Admissible(t, res, now)
    ensures ForeignKeysHold(Admitted(t, res, now))
  {
    var after := Admitted(t, res, now);
    var u := after.users[|t.users|];
    assert after.users == t.users + [u];
    forall id ensures Stored(after.users, id) <==> Stored(t.users, id) || id == res.userId {
      StoredGrows(t.users, u, id);
    }
    forall v | v in after.users ensures InviterStored(after.users, v) {
      if v in t.users { assert InviterStored(t.users, v); }
    }
  }

  /** The tables with the credential and its keys added. */
  function Equipped(t: Tables, res: RegistrationResult, credentialId: Id, ids: seq<Id>, inputs: seq<KeyMaterial>,
      now: Time): Tables
    requires |ids| == |inputs|
  {
    t.(credentials := t.credentials[credentialId := CredentialFor(res, credentialId, now)],
       keys := t.keys + KeyRowsFor(res.userId, credentialId, ids, inputs, now))
  }

  lemma EquippedForeignKeys(t: Tables, res: RegistrationResult, credentialId: Id, ids: seq<Id>,
      inputs: seq<KeyMaterial>, now: Time)
    requires ForeignKeysHold(t) && Stored(t.users, res.userId) && |ids| == |inputs|
    ensures ForeignKeysHold(Equipped(t, res, credentialId, ids, inputs, now))
  {
    var after := Equipped(t, res, credentialId, ids, inputs, now);
    assert forall v :: v in after.users ==> InviterStored(t.users, v);
    assert forall r :: r in after.keys ==> r in t.keys || r in KeyRowsFor(res.userId, credentialId, ids, inputs, now);
  }

  /** Storing the credential and its keys. */
  method Equip(env: Env, res: RegistrationResult, inputs: seq<KeyMaterial>, now: Time)
    returns (err: Option<Error>, ghost credentialId: Id, ghost ids: seq<Id>)
    requires env.db.tx.Some? && env.db.rules == SchemaRules(env.cfg.deferForeignKeys)
    requires env.rt.Valid() && env.rt.Fresh(env.View()) && KeysDistinct(env.View().keys)
    requires forall r :: r in env.View().keys ==> r.credentialId in env.View().credentials
    modifies env.db, env.rt
    ensures Kept(old(env.db.Conn()), env.db.Conn(), err.None?) && OnlyDraws(env.rt)
    ensures |ids| == |inputs|
    ensures err.None? ==>
              && credentialId != NIL && credentialId !in old(env.View()).credentials
              && !ExternalIdTaken(old(env.View()).credentials, res.externalId)
              && res.externalId != "" && res.publicKey != "" && (forall m :: m in inputs ==> m.Valid())
              && (forall i :: 0 <= i < |ids| ==> ids[i] != NIL)
              && KeysDistinct(old(env.View()).keys + KeyRowsFor(res.userId, credentialId, ids, inputs, now))
              && env.View() == Equipped(old(env.View()), res, credentialId, ids, inputs, now)
              && env.rt.Fresh(env.View())
    ensures res.userId != NIL ==>
              err in {Some(Infrastructure), Some(Constraint)} || err == EquipmentAnswer(old(env.View()), res, inputs)
    ensures old(env.db.Conn().Faultless() && env.db.Conn().Ready()) && env.cfg.deferForeignKeys && res.userId != NIL ==>
              err == EquipmentAnswer(old(env.View()), res, inputs)
  {
    credentialId, ids := 0, seq(|inputs|, _ => 0);
    ghost var t := env.View();
    var created := CreateCredential(env, res, now);
    if created.Err? {
      return Some(created.error), credentialId, ids;
    }
    credentialId := created.value;
    ghost var drawn := env.rt.idsDrawn;
    err, ids := SaveWrappedKeys(env, res.userId, created.value, inputs, now);
    assert ScopesDistinct(inputs) <==>
           KeysDistinct(t.keys + KeyRowsFor(res.userId, credentialId, ids, inputs, now)) by {
      if ScopesDistinct(inputs) {
        forall r, i | r in t.keys && 0 <= i < |ids| ensures r.id != ids[i] { assert ids[i] == env.rt.idAt(drawn + i); }
        NewKeysDistinct(env, t, res.userId, credentialId, ids, inputs, now);
      } else if KeysDistinct(t.keys + KeyRowsFor(res.userId, credentialId, ids, inputs, now)) {
        DistinctScopesNeeded(t, res.userId, credentialId, ids, inputs, now);
      }
    }
  }

  /** When a registration with this outcome of WebAuthn goes through. */
  predicate Registrable(cfg: Config, t: Tables, res: RegistrationResult, inputs: seq<KeyMaterial>, address: string,
      now: Time) {
    cfg.deferForeignKeys && Admissible(t, res, now) && Equippable(t, res, inputs) && address != ""
  }

  /** The same, column by column. */
  lemma RegistrableByRows(cfg: Config, t: Tables, res: RegistrationResult, inputs: seq<KeyMaterial>, address: string,
                          now: Time)
    ensures Registrable(cfg, t, res, inputs, address, now) <==>
            && cfg.deferForeignKeys && address != ""
            && res.inviteId in t.invites && t.invites[res.inviteId].usedAt == None
            && now <= t.invites[res.inviteId].expiresAt
            && t.invites[res.inviteId].createdBy != NIL
            && (exists i :: 0 <= i < |t.users| && t.users[i].id == t.invites[res.inviteId].createdBy)
            && res.userId != NIL && (forall i :: 0 <= i < |t.users| ==> t.users[i].id != res.userId)
            && res.externalId != "" && res.publicKey != ""
            && (forall k :: k in t.credentials ==> t.credentials[k].externalId != res.externalId)
            && (forall m :: m in inputs ==> m.scope < 2 && m.wrappedDek != "" && m.wrapAlgorithm != "")
            && (forall i, j :: 0 <= i < j < |inputs| ==> inputs[i].scope != inputs[j].scope)
  {
    if forall m :: m in inputs ==> m.scope < 2 {
      assert forall i :: 0 <= i < |inputs| ==> inputs[i] in inputs;
      assert forall i, j :: 0 <= i < |inputs| && 0 <= j < |inputs| ==>
        (ScopeToColumn(inputs[i].scope) == ScopeToColumn(inputs[j].scope) <==> inputs[i].scope == inputs[j].scope);
    }
  }

  /** What the redeemed invite, the user, the credential and the keys meet once they are stored. */
  predicate PiecesFit(cfg: Config, t: Tables, res: RegistrationResult, inputs: seq<KeyMaterial>,
                      credentialId: Id, ids: seq<Id>, now: Time)
  {
    && cfg.deferForeignKeys && Admissible(t, res, now) && |ids| == |inputs|
    && res.externalId != "" && res.publicKey != "" && !ExternalIdTaken(t.credentials, res.externalId)
    && credentialId != NIL && credentialId !in t.credentials
    && (forall m :: m in inputs ==> m.Valid()) && (forall i :: 0 <= i < |ids| ==> ids[i] != NIL)
    && KeysDistinct(t.keys + KeyRowsFor(res.userId, credentialId, ids, inputs, now))
  }

  /** The registration took the tables from `t` to `after`, for this outcome of WebAuthn and these inputs. */
  predicate RegistrationFits(cfg: Config, t: Tables, after: Tables, reg: Registration, res: RegistrationResult,
                             inputs: seq<KeyMaterial>, device: string, address: string, now: Time)
  {
    && |reg.keyIds| == |inputs| && reg == RegistrationOf(res, reg.credentialId, reg.keyIds, inputs, reg.session, now)
    && reg.session.device == device && reg.session.address == address
    && RegistrationPossible(cfg, t, reg) && after == Register(cfg, t, reg)
    && Registrable(cfg, t, res, inputs, address, now)
  }

  /** The answer to a registration, apart from failures: the invite decides first, then the user, the credential and
      the keys, and the session last. */
  function RegistrationAnswer(cfg: Config, t: Tables, res: RegistrationResult, inputs: seq<KeyMaterial>,
                              address: string, now: Time): (answer: Option<Error>)
    ensures answer.None? <==> Registrable(cfg, t, res, inputs, address, now)
  {
    if AdmissionAnswer(cfg, t, res, now).Some? then AdmissionAnswer(cfg, t, res, now)
    else if EquipmentAnswer(t, res, inputs).Some? then EquipmentAnswer(t, res, inputs)
    else if address == "" then Some(InvalidArgument)
    else None
  }

  /** The same answers, told by the rows. */
  lemma RegistrationAnswerByRows(cfg: Config, t: Tables, res: RegistrationResult, inputs: seq<KeyMaterial>,
                                 address: string, now: Time)
    requires ForeignKeysHold(t)
    ensures RegistrationAnswer(cfg, t, res, inputs, address, now) ==
            if res.inviteId !in t.invites then Some(InviteNotFound)
            else if t.invites[res.inviteId].usedAt.Some? then Some(InviteAlreadyUsed)
            else if now > t.invites[res.inviteId].expiresAt then Some(InviteExpired)
            else if !cfg.deferForeignKeys && (forall i :: 0 <= i < |t.users| ==> t.users[i].id != res.userId)
            then Some(Constraint)
            else if res.userId == NIL || t.invites[res.inviteId].createdBy == NIL then Some(InvalidArgument)
            else if exists i :: 0 <= i < |t.users| && t.users[i].id == res.userId then Some(Constraint)
            else if res.externalId == "" || res.publicKey == "" then Some(InvalidArgument)
            else if exists k :: k in t.credentials && t.credentials[k].externalId == res.externalId
            then Some(Constraint)
            else if exists m :: m in inputs && (m.scope >= 2 || m.wrappedDek == "" || m.wrapAlgorithm == "")
            then Some(InvalidArgument)
            else if exists i, j :: 0 <= i < j < |inputs| && inputs[i].scope == inputs[j].scope then Some(Constraint)
            else if address == "" then Some(InvalidArgument)
            else None
  {
    if forall m :: m in inputs ==> m.Valid() {
      assert forall i :: 0 <= i < |inputs| ==> inputs[i] in inputs;
      assert ScopesDistinct(inputs) <==> forall i, j :: 0 <= i < j < |inputs| ==> inputs[i].scope != inputs[j].scope;
    }
  }

  /** The pieces amount to the `Registered` event. */
  lemma PiecesAreRegistration(cfg: Config, t: Tables, after: Tables, res: RegistrationResult, inputs: seq<KeyMaterial>,
                              credentialId: Id, ids: seq<Id>, s: NewSession, now: Time)
    requires PiecesFit(cfg, t, res, inputs, credentialId, ids, now) && 0 < |inputs| <= cfg.maxWrappedKeys
    requires FreshSession(t, s)
    requires var u := Equipped(Admitted(t, res, now), res, credentialId, ids, inputs, now);
             after == u.(tokens := u.tokens[s.id := SessionRow(cfg, s, res.userId, now)])
    ensures RegistrationFits(cfg, t, after, RegistrationOf(res, credentialId, ids, inputs, s, now), res, inputs,
                             s.device, s.address, now)
  {
    DistinctScopesNeeded(t, res.userId, credentialId, ids, inputs, now);
  }

  /** Everything but the session. */
  method Populate(env: Env, res: RegistrationResult, inputs: seq<KeyMaterial>, now: Time)
    returns (err: Option<Error>, ghost credentialId: Id, ghost ids: seq<Id>)
    requires env.Sound() && env.db.tx.Some? && InvitesById(env.View().invites) && KeysDistinct(env.View().keys)
    requires ForeignKeysHold(env.View())
    modifies env.db, env.rt
    ensures Kept(old(env.db.Conn()), env.db.Conn(), err.None?) && OnlyDraws(env.rt)
    ensures |ids| == |inputs|
    ensures err.None? ==>
              var t := old(env.View());
              && PiecesFit(env.cfg, t, res, inputs, credentialId, ids, now)
              && env.View() == Equipped(Admitted(t, res, now), res, credentialId, ids, inputs, now)
              && env.rt.Fresh(env.View()) && ForeignKeysHold(env.View()) && Stored(env.View().users, res.userId)
    ensures var t := old(env.View());
            var answer := if AdmissionAnswer(env.cfg, t, res, now).Some? then AdmissionAnswer(env.cfg, t, res, now)
                          else EquipmentAnswer(t, res, inputs);
            && (err in {Some(Infrastructure), Some(Constraint)} || err == answer)
            && (old(env.db.Conn().Faultless() && env.db.Conn().Ready()) ==> err == answer)
  {
    credentialId, ids := 0, seq(|inputs|, _ => 0);
    ghost var t := env.View();
    err := AdmitUser(env, res, now);
    if err.Some? {
      return;
    }
    AdmittedForeignKeys(t, res, now);
    ghost var admitted := env.View();
    assert Stored(admitted.users, res.userId) by { assert admitted.users[|t.users|].id == res.userId; }
    err, credentialId, ids := Equip(env, res, inputs, now);
    EquippedForeignKeys(admitted, res, credentialId, ids, inputs, now);
  }

  /** The body for a clock reading. */
  method RegisterAt(env: Env, res: RegistrationResult, inputs: seq<KeyMaterial>, device: string, address: string,
      now: Time)
    returns (r: Result<TokenPair, Error>, ghost reg: Registration)
    requires env.Sound() && env.db.tx.Some? && InvitesById(env.View().invites) && KeysDistinct(env.View().keys)
    requires ForeignKeysHold(env.View()) && 0 < |inputs| <= env.cfg.maxWrappedKeys
    modifies env.db, env.rt
    ensures Kept(old(env.db.Conn()), env.db.Conn(), r.Ok?) && OnlyDraws(env.rt)
    ensures r.Ok? ==>
              && RegistrationFits(env.cfg, old(env.View()), env.View(), reg, res, inputs, device, address, now)
              && env.rt.Fresh(env.View()) && reg.session.hash == env.rt.hash(r.value.refresh)
              && AccessFits(env.View().users, res.userId, r.value.access)
    ensures var answer := RegistrationAnswer(env.cfg, old(env.View()), res, inputs, address, now);
            && (r.Err? ==> r.error in {Infrastructure, Constraint} || answer == Some(r.error))
            && (old(env.Calm()) ==> answer == if r.Ok? then None else Some(r.error))
  {
    ghost var t := env.View();
    reg := RegistrationOf(res, 0, [], [], NewSession(0, "", device, address), now);
    ghost var credentialId, ids, s;
    var err;
    err, credentialId, ids := Populate(env, res, inputs, now);
    if err.Some? {
      return Err(err.value), reg;
    }
    assert AdmissionAnswer(env.cfg, t, res, now).None? && EquipmentAnswer(t, res, inputs).None?;
    r, s := Issue(env, res.userId, device, address, now);
    reg := RegistrationOf(res, credentialId, ids, inputs, s, now);
    if r.Ok? { PiecesAreRegistration(env.cfg, t, env.View(), res, inputs, credentialId, ids, s, now); }
  }

  /** The transaction body. On success its effect is the `Registered` event. */
  method RegisterInTx(env: Env, res: RegistrationResult, inputs: seq<KeyMaterial>, device: string, address: string)
    returns (r: Result<TokenPair, Error>, ghost reg: Registration)
    requires env.Sound() && env.db.tx.Some? && InvitesById(env.View().invites) && KeysDistinct(env.View().keys)
    requires ForeignKeysHold(env.View()) && 0 < |inputs| <= env.cfg.maxWrappedKeys
    modifies env.db, env.rt
    ensures Kept(old(env.db.Conn()), env.db.Conn(), r.Ok?) && OnlyDraws(env.rt)
    ensures r.Ok? ==>
              && RegistrationFits(env.cfg, old(env.View()), env.View(), reg, res, inputs, device, address,
                                  env.rt.clockAt(old(env.rt.ticks)))
              && env.rt.Fresh(env.View()) && reg.session.hash == env.rt.hash(r.value.refresh)
              && AccessFits(env.View().users, res.userId, r.value.access)
    ensures var now := env.rt.clockAt(old(env.rt.ticks));
            var answer := RegistrationAnswer(env.cfg, old(env.View()), res, inputs, address, now);
            && (r.Err? ==> r.error in {Infrastructure, Constraint} || answer == Some(r.error))
            && (old(env.Calm()) ==> answer == if r.Ok? then None else Some(r.error))
  {
    var now := env.rt.Now();
    r, reg := RegisterAt(env, res, inputs, device, address, now);
  }
}
