/** The steps of invite creation, on a storage with an open transaction. */
module InviteSteps {
  import opened Basics
  import opened Domain
  import opened TrustTree
  import opened Tables
  import opened Environment
  import opened Sessions

  /** Why no invite is handed out, if so, apart from failures. */
  function CreateAnswer(t: Tables, createdBy: Id, policy: Policy, now: Time): Option<Error> {
    if policy.CanIssue(|ActiveInvites(t.invites, createdBy, now)|).Some? then Some(TooManyActiveInvites)
    else if createdBy == NIL then Some(InvalidArgument)
    else if !Stored(t.users, createdBy) then Some(Constraint)
    else None
  }

  /** The quota decides first, on the creator's invites that are neither used nor expired; then the creator itself. */
  lemma CreateAnswerByRows(t: Tables, createdBy: Id, policy: Policy, now: Time)
    ensures var open := set k | k in t.invites && t.invites[k].createdBy == createdBy && t.invites[k].usedAt == None
                                && now < t.invites[k].expiresAt;
            CreateAnswer(t, createdBy, policy, now) ==
            if policy.Limited? && |open| >= policy.maxActive then Some(TooManyActiveInvites)
            else if createdBy == NIL then Some(InvalidArgument)
            else if exists i :: 0 <= i < |t.users| && t.users[i].id == createdBy then None
            else Some(Constraint)
  {
    assert ActiveInvites(t.invites, createdBy, now) ==
           set k | k in t.invites && t.invites[k].createdBy == createdBy && t.invites[k].usedAt == None
                   && now < t.invites[k].expiresAt;
  }

  /** A stored creator whose invites are all used or expired gets one, if the policy allows any at all. */
  lemma ExpiredInvitesDoNotCount(t: Tables, createdBy: Id, policy: Policy, now: Time)
    requires createdBy != NIL && exists i :: 0 <= i < |t.users| && t.users[i].id == createdBy
    requires policy.Limited? ==> policy.maxActive > 0
    requires forall k :: k in t.invites && t.invites[k].createdBy == createdBy ==>
               t.invites[k].usedAt.Some? || t.invites[k].expiresAt <= now
    ensures CreateAnswer(t, createdBy, policy, now) == None
  {
    NoneOpen(t.invites, createdBy, now);
  }

  /** `row` is a new, unused invite of the creator, within the policy at the reading of the clock. */
  predicate InviteFits(t: Tables, row: InviteRow, createdBy: Id, codeHash: string, policy: Policy, ttl: Duration,
      now: Time) {
    && row == InviteRow(row.id, createdBy, codeHash, None, None, now + ttl, now)
    && createdBy != NIL && row.id != NIL && row.id !in t.invites && !CodeTaken(t.invites, codeHash)
    && policy.CanIssue(|ActiveInvites(t.invites, createdBy, now)|).None?
  }

  /** Takes the creator's advisory lock, then counts. */
  method CountActiveByUser(env: Env, userId: Id, now: Time) returns (r: Result<nat, Error>)
    modifies env.db
    ensures Kept(old(env.db.Conn()), env.db.Conn(), r.Ok?) && env.View() == old(env.View())
    ensures r.Ok? ==> r.value == |ActiveInvites(env.View().invites, userId, now)|
    ensures r.Err? ==> r.error == Infrastructure
    ensures old(env.db.Conn().Faultless() && env.db.Conn().Ready()) ==> r.Ok?
  {
    var err := env.db.Query();
    if err.Some? {
      return Err(Infrastructure);
    }
    err := env.db.Query();
    if err.Some? {
      return Err(Infrastructure);
    }
    var count: nat := |ActiveInvites(env.View().invites, userId, now)|;
    return Ok(count);
  }

  lemma CreatorKeepsForeignKeys(t: Tables, row: InviteRow)
    requires ForeignKeysHold(t) && row.usedBy.None?
    ensures ForeignKeysHold(t.(invites := t.invites[row.id := row])) <==> Stored(t.users, row.createdBy)
  {
    var after := t.(invites := t.invites[row.id := row]);
    assert after.invites[row.id] == row;
    assert forall u :: u in t.users ==> InviterStored(t.users, u);
  }

  method DrawInvite(env: Env, createdBy: Id, ttl: Duration, now: Time)
    returns (invite: Result<Invite, Error>, code: string)
    requires env.Sound()
    modifies env.rt
    ensures OnlyDraws(env.rt) && env.rt.ticks == old(env.rt.ticks)
    ensures invite.Ok? ==>
              var row := invite.value.Row();
              && fresh(invite.value)
              && row == InviteRow(row.id, createdBy, env.rt.hash(code), None, None, now + ttl, now)
              && row.id != NIL && createdBy != NIL && row.id !in env.View().invites
              && !CodeTaken(env.View().invites, row.codeHash)
              && env.rt.Fresh(env.View().(invites := env.View().invites[row.id := row]))
    ensures invite.Err? ==> invite.error == Infrastructure || (invite.error == InvalidArgument && createdBy == NIL)
    ensures old(env.rt.Faultless()) ==>
            (invite.Ok? <==> createdBy != NIL) && (invite.Err? ==> invite.error == InvalidArgument)
  {
    code := "";
    var pair := env.rt.GenerateToken();
    if pair.Err? {
      return Err(pair.error), code;
    }
    code := pair.value.0;
    var id := env.rt.NewID();
    invite := Invite.New(id, createdBy, pair.value.1, ttl, now);
    if invite.Ok? {
      env.rt.InviteStored(old(env.rt.idsDrawn), old(env.rt.tokensDrawn), env.View(), invite.value.Row());
    }
  }

  /** Saves an invite that is not stored yet. Its creator must be, at the latest when the transaction commits. */
  method SaveNewInvite(env: Env, row: InviteRow) returns (err: Option<Error>)
    requires env.db.tx.Some? && env.db.rules == SchemaRules(env.cfg.deferForeignKeys) && ForeignKeysHold(env.View())
    requires row.id !in env.View().invites && !CodeTaken(env.View().invites, row.codeHash) && row.usedBy.None?
    modifies env.db
    ensures Kept(old(env.db.Conn()), env.db.Conn(), err.None?)
    ensures err.None? ==>
              && env.View() == old(env.View()).(invites := old(env.View()).invites[row.id := row])
              && (ForeignKeysHold(env.View()) <==> Stored(old(env.View()).users, row.createdBy))
    ensures err in {None, Some(Infrastructure), Some(Constraint)}
    ensures old(env.db.Conn().Faultless() && env.db.Conn().Ready()) ==>
              err ==
              if env.cfg.deferForeignKeys || Stored(old(env.View()).users, row.createdBy) then None
              else Some(Constraint)
  {
    ghost var t := env.View();
    CreatorKeepsForeignKeys(t, row);
    assert UpsertInvite(t, row) == Some(t.(invites := t.invites[row.id := row]));
    err := env.db.Exec(t => UpsertInvite(t, row));
  }

  /** The transaction body: lock and count, ask the policy, draw a code, save. `now` was read before. */
  method CreateInviteInTx(env: Env, createdBy: Id, policy: Policy, ttl: Duration, now: Time)
    returns (r: Result<Invite, Error>, code: string)
    requires env.Sound() && env.db.tx.Some? && ForeignKeysHold(env.View())
    modifies env.db, env.rt
    ensures Kept(old(env.db.Conn()), env.db.Conn(), r.Ok?) && OnlyDraws(env.rt)
    ensures r.Ok? ==>
              var t := old(env.View()); var row := r.value.Row();
              && fresh(r.value) && InviteFits(t, row, createdBy, env.rt.hash(code), policy, ttl, now)
              && env.View() == t.(invites := t.invites[row.id := row]) && env.rt.Fresh(env.View())
              && (ForeignKeysHold(env.View()) <==> Stored(t.users, createdBy))
    ensures r.Err? ==>
              r.error in {Infrastructure, Constraint} ||
              CreateAnswer(old(env.View()), createdBy, policy, now) == Some(r.error)
    ensures old(env.Calm()) ==>
              var answer := CreateAnswer(old(env.View()), createdBy, policy, now);
              if answer.None? || (env.cfg.deferForeignKeys && answer.value == Constraint) then r.Ok?
              else r == Err(answer.value)
  {
    code := "";
    var active := CountActiveByUser(env, createdBy, now);
    if active.Err? {
      return Err(active.error), code;
    }
    var refused := policy.CanIssue(active.value);
    if refused.Some? {
      return Err(refused.value), code;
    }
    r, code := DrawInvite(env, createdBy, ttl, now);
    if r.Err? {
      return;
    }
    var err := SaveNewInvite(env, r.value.Row());
    if err.Some? {
      return Err(err.value), code;
    }
  }
}
