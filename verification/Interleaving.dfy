/** Invite creation and registration interleaved statement by statement: any number of open transactions, each seeing
    the committed tables, each holding the locks its statements took, each free to fail at any time. What the locks buy
    is stated for every schedule. */
module Interleaving {
  import opened Basics
  import opened Domain
  import opened TrustTree
  import opened Tables
  import InviteSteps
  import RegistrationSteps

  /** `NotLocked` until `pg_advisory_xact_lock` on the creator returns; `Approved` once counted and allowed. */
  datatype IssueStage = NotLocked | Locked | Approved | Saved(row: InviteRow)

  /** `Waiting` until `FOR UPDATE` on the invite returns a row; what follows is written but not committed. */
  datatype RedeemStage =
    Waiting | RowLocked(seen: InviteRow) | Marked | WithCreator(creator: User) | UserAdded(user: User)

  datatype Tx =
    | Issuing(creator: Id, policy: Policy, now: Time, issue: IssueStage)
    | Redeeming(inviteId: Id, userId: Id, now: Time, redeem: RedeemStage)

  /** `limit` is the bound of the limited issuer; `unbounded` are the users the unlimited issuer was used for. */
  datatype System = System(
    deferForeignKeys: bool, limit: int, clock: Time, users: seq<User>, invites: map<Id, InviteRow>,
    txs: map<nat, Tx>, unbounded: set<Id>)

  datatype Action =
    | Tick(to: Time)
    | InsertRoot(id: Id)
    | StartIssue(tx: nat, creator: Id, unlimited: bool)
    | LockCreator(tx: nat)
    | CountAndAsk(tx: nat)
    | SaveInvite(tx: nat, id: Id, codeHash: string, ttl: Duration)
    | CommitIssue(tx: nat)
    | StartRedeem(tx: nat, inviteId: Id, userId: Id)
    | LockInvite(tx: nat)
    | MarkInvite(tx: nat)
    | FindCreator(tx: nat)
    | AddUser(tx: nat)
    | CommitRedeem(tx: nat)
    | Abort(tx: nat)

  // ---- locks and unfinished writes ----

  predicate HoldsCreator(t: Tx, u: Id) { t.Issuing? && t.creator == u && !t.issue.NotLocked? }

  predicate HoldsInvite(t: Tx, k: Id) { t.Redeeming? && t.inviteId == k && !t.redeem.Waiting? }

  predicate WritesInvite(t: Tx, k: Id) { t.Issuing? && t.issue.Saved? && t.issue.row.id == k }

  predicate WritesHash(t: Tx, hash: string) { t.Issuing? && t.issue.Saved? && t.issue.row.codeHash == hash }

  predicate WritesUser(t: Tx, u: Id) { t.Redeeming? && t.redeem.UserAdded? && t.redeem.user.id == u }

  predicate CreatorFree(s: System, u: Id) { forall i :: i in s.txs ==> !HoldsCreator(s.txs[i], u) }
  predicate InviteFree(s: System, k: Id) { forall i :: i in s.txs ==> !HoldsInvite(s.txs[i], k) }
  predicate NoInviteWriter(s: System, k: Id) { forall i :: i in s.txs ==> !WritesInvite(s.txs[i], k) }
  predicate NoHashWriter(s: System, hash: string) { forall i :: i in s.txs ==> !WritesHash(s.txs[i], hash) }
  predicate NoUserWriter(s: System, u: Id) { forall i :: i in s.txs ==> !WritesUser(s.txs[i], u) }

  function ActiveCount(s: System, u: Id, t: Time): nat { |ActiveInvites(s.invites, u, t)| }

  // ---- the steps ----

  predicate Issues(s: System, tx: nat, stage: IssueStage) {
    tx in s.txs && s.txs[tx].Issuing? && s.txs[tx].issue == stage
  }

  /** When a step can be taken. A lock or a conflicting key held by another transaction makes it wait; an
      unmet check of the program, or a violated constraint, leaves only `Abort`. */
  predicate Enabled(s: System, a: Action) {
    match a
    case Tick(to) => to >= s.clock
    case InsertRoot(id) =>
      id != NIL && !Stored(s.users, id) && NoUserWriter(s, id) && (forall u :: u in s.users ==> !u.IsRoot())
    case StartIssue(tx, creator, unlimited) => tx !in s.txs
    case LockCreator(tx) => Issues(s, tx, NotLocked) && CreatorFree(s, s.txs[tx].creator)
    case CountAndAsk(tx) =>
      Issues(s, tx, Locked) && s.txs[tx].policy.CanIssue(ActiveCount(s, s.txs[tx].creator, s.txs[tx].now)).None?
    case SaveInvite(tx, id, codeHash, ttl) =>
      && Issues(s, tx, Approved) && id != NIL && s.txs[tx].creator != NIL && id !in s.invites && NoInviteWriter(s, id)
      && !CodeTaken(s.invites, codeHash) && NoHashWriter(s, codeHash)
    case CommitIssue(tx) =>
      tx in s.txs && s.txs[tx].Issuing? && s.txs[tx].issue.Saved? && Stored(s.users, s.txs[tx].creator)
    case StartRedeem(tx, inviteId, userId) => tx !in s.txs
    case LockInvite(tx) =>
      && tx in s.txs && s.txs[tx].Redeeming? && s.txs[tx].redeem.Waiting?
      && s.txs[tx].inviteId in s.invites && InviteFree(s, s.txs[tx].inviteId)
    case MarkInvite(tx) =>
      && tx in s.txs && s.txs[tx].Redeeming? && s.txs[tx].redeem.RowLocked?
      && !s.txs[tx].redeem.seen.IsUsed() && !s.txs[tx].redeem.seen.IsExpired(s.txs[tx].now)
      && (s.deferForeignKeys || Stored(s.users, s.txs[tx].userId))
    case FindCreator(tx) =>
      && tx in s.txs && s.txs[tx].Redeeming? && s.txs[tx].redeem.Marked?
      && s.txs[tx].inviteId in s.invites && Stored(s.users, s.invites[s.txs[tx].inviteId].createdBy)
    case AddUser(tx) =>
      && tx in s.txs && s.txs[tx].Redeeming? && s.txs[tx].redeem.WithCreator?
      && s.txs[tx].userId != NIL && s.txs[tx].redeem.creator.id != NIL
      && !Stored(s.users, s.txs[tx].userId) && NoUserWriter(s, s.txs[tx].userId)
    case CommitRedeem(tx) =>
      tx in s.txs && s.txs[tx].Redeeming? && s.txs[tx].redeem.UserAdded? && s.txs[tx].inviteId in s.invites
    case Abort(tx) => tx in s.txs
  }

  function Staged(s: System, tx: nat, t: Tx): System { s.(txs := s.txs[tx := t]) }

  function Next(s: System, a: Action): System
    requires Enabled(s, a)
  {
    match a
    case Tick(to) => s.(clock := to)
    case InsertRoot(id) => s.(users := s.users + [User(id, Admin, None, s.clock)])
    case StartIssue(tx, creator, unlimited) =>
      Staged(s, tx, Issuing(creator, if unlimited then Unlimited else Limited(s.limit), s.clock, NotLocked))
      .(unbounded := if unlimited then s.unbounded + {creator} else s.unbounded)
    case LockCreator(tx) => Staged(s, tx, s.txs[tx].(issue := Locked))
    case CountAndAsk(tx) => Staged(s, tx, s.txs[tx].(issue := Approved))
    case SaveInvite(tx, id, codeHash, ttl) =>
      var t := s.txs[tx];
      Staged(s, tx, t.(issue := Saved(InviteRow(id, t.creator, codeHash, None, None, t.now + ttl, t.now))))
    case CommitIssue(tx) =>
      var row := s.txs[tx].issue.row;
      s.(invites := s.invites[row.id := row], txs := s.txs - {tx})
    case StartRedeem(tx, inviteId, userId) => Staged(s, tx, Redeeming(inviteId, userId, s.clock, Waiting))
    case LockInvite(tx) => Staged(s, tx, s.txs[tx].(redeem := RowLocked(s.invites[s.txs[tx].inviteId])))
    case MarkInvite(tx) => Staged(s, tx, s.txs[tx].(redeem := Marked))
    case FindCreator(tx) =>
      Staged(s, tx, s.txs[tx].(redeem := WithCreator(FindUser(s.users, s.invites[s.txs[tx].inviteId].createdBy).value)))
    case AddUser(tx) =>
      var t := s.txs[tx];
      Staged(s, tx,
        t.(redeem := UserAdded(User(t.userId, t.redeem.creator.NextInviteeRole(), Some(t.redeem.creator.id), t.now))))
    case CommitRedeem(tx) =>
      var t := s.txs[tx];
      s.(users := s.users + [t.redeem.user], txs := s.txs - {tx},
         invites := s.invites[t.inviteId := s.invites[t.inviteId].(usedBy := Some(t.userId), usedAt := Some(t.now))])
    case Abort(tx) => s.(txs := s.txs - {tx})
  }

  ghost predicate Schedule(start: System, actions: seq<Action>)
    decreases |actions|, 0
  {
    actions == []
    || (Schedule(start, actions[..|actions| - 1])
        && Enabled(After(start, actions[..|actions| - 1]), actions[|actions| - 1]))
  }

  ghost function After(start: System, actions: seq<Action>): System
    requires Schedule(start, actions)
    decreases |actions|, 1
  {
    if actions == [] then start else Next(After(start, actions[..|actions| - 1]), actions[|actions| - 1])
  }

  predicate Start(s: System) {
    s.users == [] && s.invites == map[] && s.txs == map[] && s.unbounded == {}
  }

  // ---- the invariant ----

  function Bound(limit: int): nat { if limit > 0 then limit else 0 }

  /** From `from` on, fewer than `bound` invites of `u` are active. */
  ghost predicate FewerThan(invites: map<Id, InviteRow>, u: Id, from: Time, bound: int) {
    forall t :: t >= from ==> |ActiveInvites(invites, u, t)| < bound
  }

  ghost predicate TxInv(s: System, t: Tx) {
    t.now <= s.clock
    && match t
       case Issuing(creator, policy, now, stage) =>
         && (policy == Limited(s.limit) || (policy == Unlimited && creator in s.unbounded))
         && (stage.Saved? ==> var row := stage.row;
               row.createdBy == creator && row.usedBy.None? && row.usedAt.None?
               && row.id !in s.invites && !CodeTaken(s.invites, row.codeHash))
         && ((stage.Approved? || stage.Saved?) && policy.Limited? ==> FewerThan(s.invites, creator, now, s.limit))
       case Redeeming(inviteId, userId, now, stage) =>
         && (!stage.Waiting? ==> inviteId in s.invites)
         && (stage.RowLocked? ==> stage.seen == s.invites[inviteId])
         && (stage.Marked? || stage.WithCreator? || stage.UserAdded? ==>
               !s.invites[inviteId].IsUsed() && !s.invites[inviteId].IsExpired(now))
         && (stage.WithCreator? ==> stage.creator in s.users && stage.creator.id == s.invites[inviteId].createdBy)
         && (stage.UserAdded? ==> UserReady(s, t))
  }

  /** The user a redeeming transaction has written fits the committed tables. */
  ghost predicate UserReady(s: System, t: Tx)
    requires t.Redeeming? && t.redeem.UserAdded? && t.inviteId in s.invites
  {
    && !Stored(s.users, t.userId)
    && exists c :: c in s.users && c.id == s.invites[t.inviteId].createdBy
                   && t.redeem.user == User(t.userId, c.NextInviteeRole(), Some(c.id), t.now)
  }

  /** Two transactions never hold the same lock nor write the same key. */
  predicate Compatible(t: Tx, o: Tx) {
    && (t.Issuing? && o.Issuing? && t.creator == o.creator ==> t.issue.NotLocked? || o.issue.NotLocked?)
    && (t.Issuing? && o.Issuing? && t.issue.Saved? && o.issue.Saved? ==>
          t.issue.row.id != o.issue.row.id && t.issue.row.codeHash != o.issue.row.codeHash)
    && (t.Redeeming? && o.Redeeming? && t.inviteId == o.inviteId ==> t.redeem.Waiting? || o.redeem.Waiting?)
    && (t.Redeeming? && o.Redeeming? && t.redeem.UserAdded? && o.redeem.UserAdded? ==> t.userId != o.userId)
  }

  /** Every user served by the limited issuer alone has at most the limit of invites still open now or later. */
  ghost predicate QuotaHolds(s: System) {
    forall u :: u !in s.unbounded ==> FewerThan(s.invites, u, s.clock, Bound(s.limit) + 1)
  }

  ghost predicate SystemInv(s: System) {
    && TrustInv(s.users, s.invites)
    && QuotaHolds(s)
    && (forall i :: i in s.txs ==> TxInv(s, s.txs[i]))
    && (forall i, j :: i in s.txs && j in s.txs && i != j ==> Compatible(s.txs[i], s.txs[j]))
  }

  // ---- counting active invites ----

  lemma SubsetCard<T>(a: set<T>, b: set<T>)
    requires a <= b
    ensures |a| <= |b|
  {
    if a != {} {
      var x :| x in a;
      SubsetCard(a - {x}, b - {x});
    }
  }

  /** Time only closes invites, so a count taken at `t0` bounds every later one. */
  lemma CountShrinks(invites: map<Id, InviteRow>, u: Id, t0: Time, bound: int)
    requires |ActiveInvites(invites, u, t0)| < bound
    ensures FewerThan(invites, u, t0, bound)
  {
    forall t | t >= t0 ensures |ActiveInvites(invites, u, t)| < bound {
      SubsetCard(ActiveInvites(invites, u, t), ActiveInvites(invites, u, t0));
    }
  }

  /** Storing or redeeming the invite `k` opens no other invite. */
  lemma OneRowChanges(invites: map<Id, InviteRow>, k: Id, row: InviteRow, u: Id, from: Time, bound: int)
    requires FewerThan(invites, u, from, bound)
    ensures FewerThan(invites[k := row], u, from, bound + 1)
    ensures row.createdBy != u || row.usedAt.Some? ==> FewerThan(invites[k := row], u, from, bound)
  {
    var after := invites[k := row];
    forall t | t >= from
      ensures |ActiveInvites(after, u, t)| < bound + 1
      ensures row.createdBy != u || row.usedAt.Some? ==> |ActiveInvites(after, u, t)| < bound
    {
      var was := ActiveInvites(invites, u, t);
      SubsetCard(ActiveInvites(after, u, t), was + {k});
      if row.createdBy != u || row.usedAt.Some? { SubsetCard(ActiveInvites(after, u, t), was); }
    }
  }

  /** What the answer of the policy is worth: the invite it allows leaves the creator, at every time from the count
      on, with no more open invites than the limit. */
  lemma AllowedIssueStaysWithinLimit(invites: map<Id, InviteRow>, row: InviteRow, limit: int, now: Time, t: Time)
    requires Limited(limit).CanIssue(|ActiveInvites(invites, row.createdBy, now)|).None? && t >= now
    ensures |ActiveInvites(invites[row.id := row], row.createdBy, t)| <= limit
  {
    CountShrinks(invites, row.createdBy, now, limit);
    OneRowChanges(invites, row.id, row, row.createdBy, now, limit);
  }

  // ---- steps that commit nothing ----

  /** The same committed tables, and no less time and no fewer unlimited users. */
  predicate SameTables(s: System, after: System) {
    && after.users == s.users && after.invites == s.invites && after.limit == s.limit
    && after.clock >= s.clock && s.unbounded <= after.unbounded
  }

  lemma TxKept(s: System, after: System, t: Tx)
    requires SameTables(s, after) && TxInv(s, t)
    ensures TxInv(after, t)
  {
  }

  lemma StagingKeeps(s: System, after: System, tx: nat, t: Tx)
    requires SystemInv(s) && SameTables(s, after) && after.txs == s.txs[tx := t]
    requires TxInv(after, t)
    requires forall i :: i in s.txs && i != tx ==> Compatible(t, s.txs[i])
    ensures SystemInv(after)
  {
    forall i | i in after.txs ensures TxInv(after, after.txs[i]) {
      if i != tx { TxKept(s, after, s.txs[i]); }
    }
    forall i, j | i in after.txs && j in after.txs && i != j ensures Compatible(after.txs[i], after.txs[j]) {
      if i != tx && j == tx { CompatibleSymmetric(t, s.txs[i]); }
    }
  }

  lemma CompatibleSymmetric(t: Tx, o: Tx)
    requires Compatible(t, o)
    ensures Compatible(o, t)
  {
  }

  lemma IdleKeeps(s: System, a: Action)
    requires SystemInv(s) && Enabled(s, a) && (a.Tick? || a.Abort?)
    ensures SystemInv(Next(s, a))
  {
    forall i | i in Next(s, a).txs ensures TxInv(Next(s, a), s.txs[i]) { TxKept(s, Next(s, a), s.txs[i]); }
  }

  predicate StagingIssue(a: Action) { a.StartIssue? || a.LockCreator? || a.CountAndAsk? || a.SaveInvite? }

  lemma StagingIssueKeeps(s: System, a: Action)
    requires SystemInv(s) && Enabled(s, a) && StagingIssue(a)
    ensures SystemInv(Next(s, a))
  {
    var t := Next(s, a).txs[a.tx];
    if a.CountAndAsk? && t.policy.Limited? { CountShrinks(s.invites, t.creator, t.now, s.limit); }
    forall i | i in s.txs && i != a.tx ensures Compatible(t, s.txs[i]) {
      if a.tx in s.txs { assert Compatible(s.txs[a.tx], s.txs[i]); }
      if a.LockCreator? { assert !HoldsCreator(s.txs[i], t.creator); }
      if a.SaveInvite? {
        assert !WritesInvite(s.txs[i], a.id);
        assert !WritesHash(s.txs[i], a.codeHash);
      }
    }
    StagingKeeps(s, Next(s, a), a.tx, t);
  }

  predicate StagingRedeem(a: Action) {
    a.StartRedeem? || a.LockInvite? || a.MarkInvite? || a.FindCreator? || a.AddUser?
  }

  lemma StagingRedeemKeeps(s: System, a: Action)
    requires SystemInv(s) && Enabled(s, a) && StagingRedeem(a)
    ensures SystemInv(Next(s, a))
  {
    var t := Next(s, a).txs[a.tx];
    forall i | i in s.txs && i != a.tx ensures Compatible(t, s.txs[i]) {
      if a.tx in s.txs { assert Compatible(s.txs[a.tx], s.txs[i]); }
      if a.LockInvite? { assert !HoldsInvite(s.txs[i], t.inviteId); }
      if a.AddUser? { assert !WritesUser(s.txs[i], t.userId); }
    }
    StagingKeeps(s, Next(s, a), a.tx, t);
  }

  // ---- commits ----

  lemma CommitIssueKeepsTx(s: System, tx: nat, i: nat)
    requires SystemInv(s) && Enabled(s, CommitIssue(tx)) && i in s.txs && i != tx
    ensures TxInv(Next(s, CommitIssue(tx)), s.txs[i])
  {
    var row := s.txs[tx].issue.row;
    var o := s.txs[i];
    assert TxInv(s, s.txs[tx]) && Compatible(s.txs[tx], o);
    if o.Issuing? && !o.issue.NotLocked? && FewerThan(s.invites, o.creator, o.now, s.limit) {
      OneRowChanges(s.invites, row.id, row, o.creator, o.now, s.limit);
    }
  }

  lemma CommitIssueKeeps(s: System, tx: nat)
    requires SystemInv(s) && Enabled(s, CommitIssue(tx))
    ensures SystemInv(Next(s, CommitIssue(tx)))
  {
    var row := s.txs[tx].issue.row;
    assert TxInv(s, s.txs[tx]);
    UnusedInviteKeepsTrust(s.users, s.invites, row);
    forall u | u !in s.unbounded ensures FewerThan(s.invites[row.id := row], u, s.clock, Bound(s.limit) + 1) {
      OneRowChanges(s.invites, row.id, row, u, s.clock, Bound(s.limit) + 1);
      if u == row.createdBy {
        assert FewerThan(s.invites, u, s.txs[tx].now, s.limit);
        OneRowChanges(s.invites, row.id, row, u, s.txs[tx].now, s.limit);
        assert |ActiveInvites(s.invites, u, s.clock)| < s.limit;
      }
    }
    forall i | i in s.txs && i != tx ensures TxInv(Next(s, CommitIssue(tx)), s.txs[i]) { CommitIssueKeepsTx(s, tx, i); }
  }

  lemma UserReadyKept(s: System, after: System, t: Tx, u: User)
    requires t.Redeeming? && t.redeem.UserAdded? && t.inviteId in s.invites && UserReady(s, t)
    requires after.users == s.users + [u] && u.id != t.userId
    requires t.inviteId in after.invites && after.invites[t.inviteId].createdBy == s.invites[t.inviteId].createdBy
    ensures UserReady(after, t)
  {
    var c :| c in s.users && c.id == s.invites[t.inviteId].createdBy
             && t.redeem.user == User(t.userId, c.NextInviteeRole(), Some(c.id), t.now);
    assert c in after.users;
  }

  lemma CommitRedeemKeepsTx(s: System, tx: nat, i: nat)
    requires SystemInv(s) && Enabled(s, CommitRedeem(tx)) && i in s.txs && i != tx
    ensures TxInv(Next(s, CommitRedeem(tx)), s.txs[i])
  {
    var t, o, after := s.txs[tx], s.txs[i], Next(s, CommitRedeem(tx));
    assert TxInv(s, t) && Compatible(t, o);
    if o.Issuing? {
      if FewerThan(s.invites, o.creator, o.now, s.limit) {
        OneRowChanges(s.invites, t.inviteId, after.invites[t.inviteId], o.creator, o.now, s.limit);
      }
    } else if o.redeem.UserAdded? {
      UserReadyKept(s, after, o, t.redeem.user);
    }
  }

  lemma CommitRedeemKeeps(s: System, tx: nat)
    requires SystemInv(s) && Enabled(s, CommitRedeem(tx))
    ensures SystemInv(Next(s, CommitRedeem(tx)))
  {
    var t, after := s.txs[tx], Next(s, CommitRedeem(tx));
    assert TxInv(s, t);
    var c :| c in s.users && c.id == s.invites[t.inviteId].createdBy
             && t.redeem.user == User(t.userId, c.NextInviteeRole(), Some(c.id), t.now);
    var j :| 0 <= j < |s.users| && s.users[j] == c;
    RegistrationKeepsTrust(s.users, s.invites, t.inviteId, t.redeem.user, j);
    forall u | u !in s.unbounded ensures FewerThan(after.invites, u, s.clock, Bound(s.limit) + 1) {
      OneRowChanges(s.invites, t.inviteId, after.invites[t.inviteId], u, s.clock, Bound(s.limit) + 1);
    }
    forall i | i in s.txs && i != tx ensures TxInv(after, s.txs[i]) { CommitRedeemKeepsTx(s, tx, i); }
  }

  lemma RootIsStored(users: seq<User>)
    requires Tree(users) && users != []
    ensures exists u :: u in users && u.IsRoot()
  {
    assert users[0] in users && users[0].IsRoot();
  }

  lemma InsertRootKeeps(s: System, id: Id)
    requires SystemInv(s) && Enabled(s, InsertRoot(id))
    ensures SystemInv(Next(s, InsertRoot(id)))
  {
    var after, u := Next(s, InsertRoot(id)), User(id, Admin, None, s.clock);
    if s.users != [] { RootIsStored(s.users); }
    assert after.users == [u];
    RootKeepsTrust(s.invites, u);
    forall i | i in s.txs ensures TxInv(after, s.txs[i]) {
      var o := s.txs[i];
      assert TxInv(s, o) && !WritesUser(o, id);
      if o.Redeeming? && o.redeem.UserAdded? { UserReadyKept(s, after, o, u); }
    }
  }

  // ---- every schedule ----

  lemma StepKeepsInv(s: System, a: Action)
    requires SystemInv(s) && Enabled(s, a)
    ensures SystemInv(Next(s, a))
  {
    match a
    case CommitIssue(tx) => CommitIssueKeeps(s, tx);
    case CommitRedeem(tx) => CommitRedeemKeeps(s, tx);
    case InsertRoot(id) => InsertRootKeeps(s, id);
    case Tick(_) => IdleKeeps(s, a);
    case Abort(_) => IdleKeeps(s, a);
    case _ => if StagingIssue(a) { StagingIssueKeeps(s, a); } else { StagingRedeemKeeps(s, a); }
  }

  lemma {:induction false} ScheduleKeepsInv(start: System, actions: seq<Action>)
    requires Start(start) && Schedule(start, actions)
    ensures SystemInv(After(start, actions))
    decreases |actions|
  {
    if actions != [] {
      ScheduleKeepsInv(start, actions[..|actions| - 1]);
      StepKeepsInv(After(start, actions[..|actions| - 1]), actions[|actions| - 1]);
    }
  }

  /** However registrations, invite creations and failures interleave, the committed users form one tree and each
      invite let in at most one of them. */
  lemma EachInviteAdmitsOneUser(start: System, actions: seq<Action>, k: Id, i: nat, j: nat)
    requires Start(start) && Schedule(start, actions)
    requires var s := After(start, actions);
             k in s.invites && Redeems(s.users, s.invites[k], i) && Redeems(s.users, s.invites[k], j)
    ensures TrustInv(After(start, actions).users, After(start, actions).invites)
    ensures i == j
  {
    ScheduleKeepsInv(start, actions);
  }

  /** However they interleave, a user served only by the issuer limited to `limit` has at no time from now on more
      than `limit` invites that are unused and not expired. */
  lemma QuotaHoldsInEverySchedule(start: System, actions: seq<Action>, u: Id, t: Time)
    requires Start(start) && Schedule(start, actions)
    requires u !in After(start, actions).unbounded && t >= After(start, actions).clock
    ensures |ActiveInvites(After(start, actions).invites, u, t)| <= Bound(start.limit)
  {
    ScheduleKeepsInv(start, actions);
    LimitFixed(start, actions);
  }

  lemma {:induction false} LimitFixed(start: System, actions: seq<Action>)
    requires Schedule(start, actions)
    ensures After(start, actions).limit == start.limit
    ensures After(start, actions).deferForeignKeys == start.deferForeignKeys
    decreases |actions|
  {
    if actions != [] { LimitFixed(start, actions[..|actions| - 1]); }
  }

  // ---- without interruption the steps are the use cases ----

  ghost function Step(s: Option<System>, a: Action): Option<System> {
    if s.Some? && Enabled(s.value, a) then Some(Next(s.value, a)) else None
  }

  ghost function MarkAlone(s: System, tx: nat, inviteId: Id, userId: Id): Option<System> {
    Step(Step(Step(Some(s), StartRedeem(tx, inviteId, userId)), LockInvite(tx)), MarkInvite(tx))
  }

  ghost function RedeemAlone(s: System, tx: nat, inviteId: Id, userId: Id): Option<System> {
    Step(Step(Step(MarkAlone(s, tx, inviteId, userId), FindCreator(tx)), AddUser(tx)), CommitRedeem(tx))
  }

  ghost function IssueAlone(s: System, tx: nat, creator: Id, id: Id, codeHash: string, ttl: Duration): Option<System> {
    var locked := Step(Step(Some(s), StartIssue(tx, creator, false)), LockCreator(tx));
    Step(Step(Step(locked, CountAndAsk(tx)), SaveInvite(tx, id, codeHash, ttl)), CommitIssue(tx))
  }

  function TablesOf(s: System): Tables { EMPTY.(users := s.users, invites := s.invites) }

  lemma MarkingAlone(s: System, tx: nat, inviteId: Id, userId: Id)
    requires s.txs == map[]
    ensures var end := MarkAlone(s, tx, inviteId, userId);
            && (end.Some? <==> RegistrationSteps.InviteAnswer(s.invites, inviteId, s.clock).None?
                               && (s.deferForeignKeys || Stored(s.users, userId)))
            && (end.Some? ==> end.value == s.(txs := map[tx := Redeeming(inviteId, userId, s.clock, Marked)]))
  {
  }

  /** With no other transaction about, the steps of a redemption go through exactly when the use case admits the user,
      and do what it does. */
  lemma RedeemingAloneIsAdmission(s: System, tx: nat, res: RegistrationSteps.RegistrationResult)
    requires s.txs == map[]
    ensures var end := RedeemAlone(s, tx, res.inviteId, res.userId);
            && (end.Some? <==> s.deferForeignKeys && RegistrationSteps.Admissible(TablesOf(s), res, s.clock))
            && (end.Some? ==>
                 TablesOf(end.value) == RegistrationSteps.Admitted(TablesOf(s), res, s.clock) && end.value.txs == map[])
  {
    MarkingAlone(s, tx, res.inviteId, res.userId);
    var end := RedeemAlone(s, tx, res.inviteId, res.userId);
    if end.Some? { assert end.value.txs == map[]; }
  }

  /** With no other transaction about, the steps of an issue go through exactly when the use case would answer with an
      invite, and store that invite. */
  lemma IssuingAloneIsCreation(s: System, tx: nat, creator: Id, id: Id, codeHash: string, ttl: Duration)
    requires s.txs == map[] && id != NIL && id !in s.invites && !CodeTaken(s.invites, codeHash)
    ensures var end := IssueAlone(s, tx, creator, id, codeHash, ttl);
            && (end.Some? <==> InviteSteps.CreateAnswer(TablesOf(s), creator, Limited(s.limit), s.clock).None?)
            && (end.Some? ==>
                  && end.value.users == s.users && end.value.txs == map[]
                  && end.value.invites
                       == s.invites[id := InviteRow(id, creator, codeHash, None, None, s.clock + ttl, s.clock)])
  {
    var end := IssueAlone(s, tx, creator, id, codeHash, ttl);
    if end.Some? { assert end.value.txs == map[]; }
  }
}
