/** The chain of trust: what the users and invites tables keep true, and the recursive query over it. The users
    table is the sequence of its rows in the order they were inserted; no statement updates or deletes one. */
module TrustTree {
  import opened Basics
  import opened Domain

  // ---- the tree of users ----

  predicate Stored(users: seq<User>, id: Id) {
    exists i :: 0 <= i < |users| && users[i].id == id
  }

  predicate UniqueIds(users: seq<User>) {
    forall i, j :: 0 <= i < j < |users| ==> users[i].id != users[j].id
  }

  /** Row `j` is the inviter of row `i`. */
  predicate InvitedBy(users: seq<User>, i: nat, j: nat) {
    i < |users| && j < |users| && users[i].invitedBy == Some(users[j].id)
  }

  ghost predicate HasInviter(users: seq<User>, i: nat) {
    exists j :: 0 <= j < i && InvitedBy(users, i, j)
  }

  /** One tree: only the first row has no inviter, and every other inviter was stored earlier. */
  ghost predicate Tree(users: seq<User>) {
    && UniqueIds(users)
    && (forall i :: 0 <= i < |users| ==> (users[i].invitedBy.None? <==> i == 0))
    && (forall i :: 0 < i < |users| ==> HasInviter(users, i))
  }

  ghost function Inviter(users: seq<User>, i: nat): (j: nat)
    requires Tree(users) && 0 < i < |users|
    ensures j < i && InvitedBy(users, i, j)
  {
    assert HasInviter(users, i);
    var j :| 0 <= j < i && InvitedBy(users, i, j);
    j
  }

  ghost function Depth(users: seq<User>, i: nat): nat
    requires Tree(users) && i < |users|
    decreases i
  {
    if i == 0 then 0 else 1 + Depth(users, Inviter(users, i))
  }

  /** A user is an admin exactly at depth 0 or 1 and a member below. */
  ghost predicate RolesFollowDepth(users: seq<User>)
    requires Tree(users)
  {
    forall i :: 0 <= i < |users| ==> users[i].role == if Depth(users, i) <= 1 then Admin else Member
  }

  ghost predicate TrustTree(users: seq<User>) {
    Tree(users) && RolesFollowDepth(users)
  }

  /** Following inviters always leads to earlier rows, so no user is its own ancestor. */
  lemma {:induction false} ChainsDescend(users: seq<User>, chain: seq<nat>)
    requires Tree(users) && |chain| >= 2
    requires forall k :: 0 <= k < |chain| - 1 ==> InvitedBy(users, chain[k], chain[k + 1])
    ensures chain[|chain| - 1] < chain[0]
  {
    assert InvitedBy(users, chain[0], chain[1]);
    assert Inviter(users, chain[0]) == chain[1];
    if |chain| > 2 {
      var rest := chain[1..];
      forall k | 0 <= k < |rest| - 1 ensures InvitedBy(users, rest[k], rest[k + 1]) {
        assert InvitedBy(users, chain[k + 1], chain[k + 2]);
      }
      ChainsDescend(users, rest);
    }
  }

  lemma {:induction false} DepthKept(users: seq<User>, u: User, i: nat)
    requires Tree(users) && Tree(users + [u]) && i < |users|
    ensures Depth(users + [u], i) == Depth(users, i)
    decreases i
  {
    if i > 0 {
      var j := Inviter(users, i);
      assert InvitedBy(users + [u], i, j);
      assert Inviter(users + [u], i) == j;
      DepthKept(users, u, j);
    }
  }

  /** Storing an invitee of row `c`, with the role its inviter hands out, keeps the tree. */
  lemma InviteeKeepsTree(users: seq<User>, u: User, c: nat)
    requires TrustTree(users) && c < |users| && !Stored(users, u.id)
    requires u.invitedBy == Some(users[c].id) && u.role == users[c].NextInviteeRole()
    ensures TrustTree(users + [u])
  {
    var after := users + [u];
    forall i | 0 < i < |after| ensures HasInviter(after, i) {
      var j := if i < |users| then Inviter(users, i) else c;
      assert InvitedBy(after, i, j);
    }
    forall i | 0 <= i < |users| ensures Depth(after, i) == Depth(users, i) { DepthKept(users, u, i); }
    assert InvitedBy(after, |users|, c) && Inviter(after, |users|) == c;
  }

  /** Admins are the root and those it invited; everyone else is a member. */
  lemma RolesByPlace(users: seq<User>, i: nat)
    requires TrustTree(users) && i < |users|
    ensures users[i].role == if i == 0 || users[i].invitedBy == Some(users[0].id) then Admin else Member
  {
    if i > 0 {
      var j := Inviter(users, i);
      assert InvitedBy(users, i, j);
      assert Depth(users, i) == 1 + Depth(users, j);
      assert Depth(users, j) == 0 <==> j == 0;
    }
  }

  /** Only the first user has no inviter; every other inviter is another user, stored before. */
  lemma InviterByRow(users: seq<User>, i: nat)
    requires Tree(users) && i < |users|
    ensures users[i].invitedBy == None <==> i == 0
    ensures i > 0 ==> exists j :: 0 <= j < i && users[i].invitedBy == Some(users[j].id)
    ensures forall j :: 0 <= j < |users| && j != i ==> users[j].id != users[i].id
  {
    if i > 0 {
      var j := Inviter(users, i);
      assert InvitedBy(users, i, j);
    }
  }

  lemma RootKeepsTree(u: User)
    requires u.IsRoot() && u.role == Admin
    ensures TrustTree([u])
  {
  }

  // ---- used invites and invited users ----

  ghost predicate Redeems(users: seq<User>, invite: InviteRow, i: nat) {
    && i < |users|
    && invite.usedBy == Some(users[i].id)
    && users[i].invitedBy == Some(invite.createdBy)
    && invite.usedAt == Some(users[i].createdAt)
    && users[i].createdAt <= invite.expiresAt
  }

  ghost predicate Redeemed(users: seq<User>, invite: InviteRow) {
    exists i :: 0 < i < |users| && Redeems(users, invite, i)
  }

  ghost predicate CameByInvite(users: seq<User>, invites: map<Id, InviteRow>, i: nat) {
    exists k :: k in invites && Redeems(users, invites[k], i)
  }

  /** The used invites and the non-root users are in bijection through `usedBy`. */
  ghost predicate InvitesMatchUsers(users: seq<User>, invites: map<Id, InviteRow>) {
    && (forall k :: k in invites ==> invites[k].id == k && (invites[k].usedBy.Some? <==> invites[k].IsUsed()))
    && (forall k :: k in invites && invites[k].IsUsed() ==> Redeemed(users, invites[k]))
    && (forall k, l ::
         k in invites && l in invites && invites[k].IsUsed() && invites[k].usedBy == invites[l].usedBy ==> k == l)
    && (forall i :: 0 < i < |users| ==> CameByInvite(users, invites, i))
  }

  ghost predicate TrustInv(users: seq<User>, invites: map<Id, InviteRow>) {
    TrustTree(users) && InvitesMatchUsers(users, invites)
  }

  /** Every used invite was used once, in time, by a user whom its creator invited; every user but the first came by
      exactly one. */
  lemma InvitesAndUsers(users: seq<User>, invites: map<Id, InviteRow>, i: nat)
    requires TrustInv(users, invites) && 0 < i < |users|
    ensures exists k :: k in invites && invites[k].usedBy == Some(users[i].id)
    ensures forall k :: k in invites && invites[k].usedBy == Some(users[i].id) ==>
              && users[i].invitedBy == Some(invites[k].createdBy) && invites[k].usedAt == Some(users[i].createdAt)
              && users[i].createdAt <= invites[k].expiresAt
    ensures forall k, l ::
              k in invites && l in invites && invites[k].usedBy == invites[l].usedBy == Some(users[i].id) ==> k == l
  {
    assert CameByInvite(users, invites, i);
    forall k | k in invites && invites[k].usedBy == Some(users[i].id) ensures Redeems(users, invites[k], i) {
      assert Redeemed(users, invites[k]);
      var j :| 0 < j < |users| && Redeems(users, invites[k], j);
      assert users[j].id == users[i].id;
    }
  }

  /** A used invite has its user among those stored after the first. */
  lemma UsedInviteHasUser(users: seq<User>, invites: map<Id, InviteRow>, k: Id)
    requires TrustInv(users, invites) && k in invites && (invites[k].usedAt.Some? || invites[k].usedBy.Some?)
    ensures invites[k].usedAt.Some? && invites[k].usedBy.Some?
    ensures exists i :: 0 < i < |users| && users[i].id == invites[k].usedBy.value
  {
    assert Redeemed(users, invites[k]);
    var i :| 0 < i < |users| && Redeems(users, invites[k], i);
  }

  lemma UnusedInviteKeepsTrust(users: seq<User>, invites: map<Id, InviteRow>, row: InviteRow)
    requires TrustInv(users, invites) && row.id !in invites && row.usedAt.None? && row.usedBy.None?
    ensures TrustInv(users, invites[row.id := row])
  {
    var after := invites[row.id := row];
    forall i | 0 < i < |users| ensures CameByInvite(users, after, i) {
      assert CameByInvite(users, invites, i);
      var k :| k in invites && Redeems(users, invites[k], i);
      assert Redeems(users, after[k], i);
    }
  }

  lemma RootKeepsTrust(invites: map<Id, InviteRow>, u: User)
    requires TrustInv([], invites) && u.IsRoot() && u.role == Admin
    ensures TrustInv([u], invites)
  {
    RootKeepsTree(u);
  }

  /** Invites used before stay used by the same, earlier users. */
  lemma UsedInviteKept(users: seq<User>, invite: InviteRow, u: User)
    requires Redeemed(users, invite) && !Stored(users, u.id)
    ensures Redeemed(users + [u], invite) && invite.usedBy != Some(u.id)
  {
    var i :| 0 < i < |users| && Redeems(users, invite, i);
    assert Redeems(users + [u], invite, i);
  }

  /** Users who came by an invite keep it when another one is redeemed. */
  lemma InvitedUserKept(users: seq<User>, invites: map<Id, InviteRow>, k: Id, row: InviteRow, u: User, i: nat)
    requires 0 < i < |users| && CameByInvite(users, invites, i) && k in invites && invites[k].usedBy.None?
    ensures CameByInvite(users + [u], invites[k := row], i)
  {
    var l :| l in invites && Redeems(users, invites[l], i);
    assert Redeems(users + [u], invites[k := row][l], i);
  }

  /** Redeeming invite `k` for a new user keeps the tree and the bijection. */
  lemma RegistrationKeepsTrust(users: seq<User>, invites: map<Id, InviteRow>, k: Id, u: User, c: nat)
    requires TrustInv(users, invites) && k in invites && !invites[k].IsUsed() && !invites[k].IsExpired(u.createdAt)
    requires c < |users| && users[c].id == invites[k].createdBy && !Stored(users, u.id)
    requires u.invitedBy == Some(users[c].id) && u.role == users[c].NextInviteeRole()
    ensures TrustInv(users + [u], invites[k := invites[k].(usedBy := Some(u.id), usedAt := Some(u.createdAt))])
  {
    var row := invites[k].(usedBy := Some(u.id), usedAt := Some(u.createdAt));
    var us, after := users + [u], invites[k := row];
    InviteeKeepsTree(users, u, c);
    assert Redeems(us, row, |users|);
    forall l | l in invites && invites[l].IsUsed() ensures Redeemed(us, invites[l]) && invites[l].usedBy != Some(u.id) {
      UsedInviteKept(users, invites[l], u);
    }
    forall i | 0 < i < |us| ensures CameByInvite(us, after, i) {
      if i < |users| {
        InvitedUserKept(users, invites, k, row, u, i);
      } else {
        assert Redeems(us, after[k], i);
      }
    }
  }

  // ---- the recursive descendants query ----

  function Count(s: seq<Id>, x: Id): nat {
    if s == [] then 0 else (if s[0] == x then 1 else 0) + Count(s[1..], x)
  }

  lemma {:induction false} CountConcat(s: seq<Id>, t: seq<Id>, x: Id)
    ensures Count(s + t, x) == Count(s, x) + Count(t, x)
  {
    if s == [] {
      assert s + t == t;
    } else {
      assert (s + t)[1..] == s[1..] + t;
      CountConcat(s[1..], t, x);
    }
  }

  lemma {:induction false} CountIsMultiplicity(s: seq<Id>, x: Id)
    ensures multiset(s)[x] == Count(s, x)
  {
    if s != [] {
      assert s == [s[0]] + s[1..];
      CountIsMultiplicity(s[1..], x);
    }
  }

  /** The pairs of one user with the working table: its id once for every row equal to its inviter. */
  function JoinRow(u: User, working: seq<Id>): seq<Id> {
    if working == [] then []
    else (if u.invitedBy == Some(working[0]) then [u.id] else []) + JoinRow(u, working[1..])
  }

  /** `SELECT u.id FROM users u JOIN working cc ON u.invited_by = cc.id`, duplicates kept. */
  function Join(users: seq<User>, working: seq<Id>): seq<Id> {
    if users == [] then [] else JoinRow(users[0], working) + Join(users[1..], working)
  }

  /** `SELECT id FROM users WHERE id = root`. */
  function Base(users: seq<User>, root: Id): seq<Id> {
    if users == [] then []
    else (if users[0].id == root then [root] else []) + Base(users[1..], root)
  }

  /** The working table of the `k`-th round. */
  function Level(users: seq<User>, root: Id, k: nat): seq<Id> {
    if k == 0 then Base(users, root) else Join(users, Level(users, root, k - 1))
  }

  /** `UNION ALL` of the first `k + 1` working tables. */
  function UnionAll(users: seq<User>, root: Id, k: nat): seq<Id> {
    if k == 0 then Level(users, root, 0) else UnionAll(users, root, k - 1) + Level(users, root, k)
  }

  /** How many steps up the chain of inviters lead from row `i` to `root`, if they do. */
  ghost function Distance(users: seq<User>, root: Id, i: nat): Option<nat>
    requires Tree(users) && i < |users|
    decreases i
  {
    if users[i].id == root then Some(0)
    else if i == 0 then None
    else match Distance(users, root, Inviter(users, i))
      case None => None
      case Some(d) => Some(d + 1)
  }

  /** The users whose chain of inviters reaches `root`, `root` itself included. */
  ghost function Subtree(users: seq<User>, root: Id): set<Id>
    requires Tree(users)
  {
    set i | 0 <= i < |users| && Distance(users, root, i).Some? :: users[i].id
  }

  lemma InSubtree(users: seq<User>, root: Id, i: nat)
    requires Tree(users) && i < |users|
    ensures users[i].id in Subtree(users, root) <==> Distance(users, root, i).Some?
  {
  }

  /** A user is in the subtree exactly if it is the start or its inviter is in it. */
  lemma SubtreeByInviter(users: seq<User>, root: Id, i: nat)
    requires Tree(users) && i < |users|
    ensures users[i].id in Subtree(users, root) <==>
            users[i].id == root || (users[i].invitedBy.Some? && users[i].invitedBy.value in Subtree(users, root))
  {
    InSubtree(users, root, i);
    if i > 0 { InSubtree(users, root, Inviter(users, i)); }
    if users[i].id == root { assert Distance(users, root, i) == Some(0); }
  }

  /** Row `i` is at distance exactly `d` below `root`. */
  ghost predicate At(users: seq<User>, root: Id, i: nat, d: nat)
    requires Tree(users) && i < |users|
  {
    Distance(users, root, i) == Some(d)
  }

  lemma {:induction false} DistanceBound(users: seq<User>, root: Id, i: nat)
    requires Tree(users) && i < |users| && Distance(users, root, i).Some?
    ensures exists r :: 0 <= r <= i - Distance(users, root, i).value && users[r].id == root
    decreases i
  {
    if users[i].id != root {
      DistanceBound(users, root, Inviter(users, i));
    }
  }

  lemma {:induction false} NearerLevelsOccupied(users: seq<User>, root: Id, i: nat, k: nat)
    requires Tree(users) && i < |users| && Distance(users, root, i).Some? && k <= Distance(users, root, i).value
    ensures exists j :: 0 <= j < |users| && At(users, root, j, k)
    decreases i
  {
    if k < Distance(users, root, i).value {
      NearerLevelsOccupied(users, root, Inviter(users, i), k);
    } else {
      assert At(users, root, i, k);
    }
  }

  lemma {:induction false} JoinRowCounts(u: User, working: seq<Id>, x: Id)
    ensures Count(JoinRow(u, working), x)
         == if u.invitedBy.Some? && x == u.id then Count(working, u.invitedBy.value) else 0
  {
    if working != [] {
      JoinRowCounts(u, working[1..], x);
      CountConcat(if u.invitedBy == Some(working[0]) then [u.id] else [], JoinRow(u, working[1..]), x);
    }
  }

  lemma {:induction false} JoinMisses(users: seq<User>, working: seq<Id>, x: Id)
    requires !Stored(users, x)
    ensures Count(Join(users, working), x) == 0
  {
    if users != [] {
      assert users[0].id != x;
      forall i | 0 <= i < |users[1..]| ensures users[1..][i].id != x { assert users[i + 1].id != x; }
      JoinMisses(users[1..], working, x);
      JoinRowCounts(users[0], working, x);
      CountConcat(JoinRow(users[0], working), Join(users[1..], working), x);
    }
  }

  /** With unique ids the join lists a user as often as its inviter stands in the working table. */
  lemma {:induction false} JoinCounts(users: seq<User>, working: seq<Id>, i: nat)
    requires UniqueIds(users) && i < |users|
    ensures Count(Join(users, working), users[i].id)
         == if users[i].invitedBy.Some? then Count(working, users[i].invitedBy.value) else 0
  {
    var x := users[i].id;
    JoinRowCounts(users[0], working, x);
    CountConcat(JoinRow(users[0], working), Join(users[1..], working), x);
    if i == 0 {
      forall k | 0 <= k < |users[1..]| ensures users[1..][k].id != x { assert users[k + 1].id != x; }
      JoinMisses(users[1..], working, x);
    } else {
      JoinCounts(users[1..], working, i - 1);
    }
  }

  lemma {:induction false} BaseCounts(users: seq<User>, root: Id, x: Id)
    requires UniqueIds(users)
    ensures Count(Base(users, root), x) == if x == root && Stored(users, x) then 1 else 0
  {
    if users != [] {
      var rest := users[1..];
      BaseCounts(rest, root, x);
      CountConcat(if users[0].id == root then [root] else [], Base(rest, root), x);
      assert Stored(users, x) <==> users[0].id == x || Stored(rest, x) by {
        if Stored(users, x) && users[0].id != x {
          var i :| 0 <= i < |users| && users[i].id == x;
          assert rest[i - 1].id == x;
        }
        if Stored(rest, x) {
          var i :| 0 <= i < |rest| && rest[i].id == x;
          assert users[i + 1].id == x;
        }
      }
    }
  }

  /** The inviter of the start user is not below it. */
  lemma NothingAboveRoot(users: seq<User>, root: Id, i: nat)
    requires Tree(users) && 0 < i < |users| && users[i].id == root
    ensures Distance(users, root, Inviter(users, i)).None?
  {
    if Distance(users, root, Inviter(users, i)).Some? { DistanceBound(users, root, Inviter(users, i)); }
  }

  /** Distances grow by one from the inviter to its invitees, which are never the start user. */
  lemma OneFurther(users: seq<User>, root: Id, i: nat, k: nat)
    requires Tree(users) && i < |users|
    ensures At(users, root, i, k + 1) <==> i > 0 && At(users, root, Inviter(users, i), k)
  {
    if i > 0 && users[i].id == root { NothingAboveRoot(users, root, i); }
  }

  /** A round lists a user as often as the round before listed its inviter. */
  lemma LevelFollowsInviter(users: seq<User>, root: Id, k: nat, i: nat)
    requires Tree(users) && i < |users|
    ensures Count(Level(users, root, k + 1), users[i].id)
         == if i > 0 then Count(Level(users, root, k), users[Inviter(users, i)].id) else 0
  {
    var level := Level(users, root, k);
    assert Level(users, root, k + 1) == Join(users, level);
    JoinCounts(users, level, i);
    if i > 0 {
      var j := Inviter(users, i);
      assert InvitedBy(users, i, j);
    }
  }

  ghost predicate ListedOnce(users: seq<User>, root: Id, k: nat, i: nat)
    requires Tree(users) && i < |users|
  {
    Count(Level(users, root, k), users[i].id) == if At(users, root, i, k) then 1 else 0
  }

  lemma NextRoundListsOnce(users: seq<User>, root: Id, k: nat, i: nat)
    requires Tree(users) && i < |users| && (i > 0 ==> ListedOnce(users, root, k, Inviter(users, i)))
    ensures ListedOnce(users, root, k + 1, i)
  {
    LevelFollowsInviter(users, root, k, i);
    OneFurther(users, root, i, k);
  }

  lemma FirstRoundListsOnce(users: seq<User>, root: Id, i: nat)
    requires Tree(users) && i < |users|
    ensures ListedOnce(users, root, 0, i)
  {
    BaseCounts(users, root, users[i].id);
    assert At(users, root, i, 0) <==> users[i].id == root;
  }

  lemma {:induction false} EveryRoundListsOnce(users: seq<User>, root: Id, k: nat, i: nat)
    requires Tree(users) && i < |users|
    ensures ListedOnce(users, root, k, i)
    decreases k
  {
    if k == 0 {
      FirstRoundListsOnce(users, root, i);
    } else {
      if i > 0 { EveryRoundListsOnce(users, root, k - 1, Inviter(users, i)); }
      NextRoundListsOnce(users, root, k - 1, i);
    }
  }

  /** The `k`-th working table holds every user at distance `k` once and nothing else. */
  lemma LevelCounts(users: seq<User>, root: Id, k: nat, i: nat)
    requires Tree(users) && i < |users|
    ensures Count(Level(users, root, k), users[i].id) == if At(users, root, i, k) then 1 else 0
  {
    EveryRoundListsOnce(users, root, k, i);
  }

  lemma {:induction false} LevelStored(users: seq<User>, root: Id, k: nat, x: Id)
    requires UniqueIds(users) && !Stored(users, x)
    ensures Count(Level(users, root, k), x) == 0
  {
    if k == 0 { BaseCounts(users, root, x); } else { JoinMisses(users, Level(users, root, k - 1), x); }
  }

  lemma {:induction false} UnionCounts(users: seq<User>, root: Id, k: nat, i: nat)
    requires Tree(users) && i < |users|
    ensures Count(UnionAll(users, root, k), users[i].id)
         == if Distance(users, root, i).Some? && Distance(users, root, i).value <= k then 1 else 0
    decreases k
  {
    LevelCounts(users, root, k, i);
    if k > 0 {
      CountConcat(UnionAll(users, root, k - 1), Level(users, root, k), users[i].id);
      UnionCounts(users, root, k - 1, i);
    }
  }

  lemma {:induction false} UnionStored(users: seq<User>, root: Id, k: nat, x: Id)
    requires UniqueIds(users) && !Stored(users, x)
    ensures Count(UnionAll(users, root, k), x) == 0
    decreases k
  {
    if k == 0 {
      LevelStored(users, root, 0, x);
    } else {
      UnionStored(users, root, k - 1, x);
      var earlier, level := UnionAll(users, root, k - 1), Level(users, root, k);
      assert Count(level, x) == 0 by { LevelStored(users, root, k, x); }
      CountConcat(earlier, level, x);
    }
  }

  /** No round beyond the number of users finds a row: the recursion stops. */
  lemma LevelsRunOut(users: seq<User>, root: Id, k: nat)
    requires Tree(users) && Level(users, root, k) != []
    ensures k < |users|
  {
    var x := Level(users, root, k)[0];
    assert Count(Level(users, root, k), x) > 0;
    if !Stored(users, x) { LevelStored(users, root, k, x); }
    var i :| 0 <= i < |users| && users[i].id == x;
    LevelCounts(users, root, k, i);
    DistanceBound(users, root, i);
  }

  lemma UnionHoldsSubtree(users: seq<User>, root: Id, k: nat, x: Id)
    requires Tree(users) && Level(users, root, k) == []
    ensures Count(UnionAll(users, root, k), x) == if x in Subtree(users, root) then 1 else 0
  {
    if Stored(users, x) {
      var i :| 0 <= i < |users| && users[i].id == x;
      UnionCounts(users, root, k, i);
      if Distance(users, root, i).Some? && Distance(users, root, i).value > k {
        NearerLevelsOccupied(users, root, i, k);
        var j :| 0 <= j < |users| && At(users, root, j, k);
        LevelCounts(users, root, k, j);
      }
    } else {
      UnionStored(users, root, k, x);
    }
  }

  /** Once a round is empty the union is the subtree, every id exactly once. */
  lemma UnionIsSubtree(users: seq<User>, root: Id, k: nat)
    requires Tree(users) && Level(users, root, k) == []
    ensures multiset(UnionAll(users, root, k)) == multiset(Subtree(users, root))
  {
    var ids, below := UnionAll(users, root, k), Subtree(users, root);
    forall x ensures multiset(ids)[x] == multiset(below)[x] {
      CountIsMultiplicity(ids, x);
      UnionHoldsSubtree(users, root, k, x);
    }
  }

  /** The query as the database runs it: rounds of the recursive term until one is empty. */
  method ListDescendants(users: seq<User>, root: Id) returns (ids: seq<Id>)
    requires Tree(users)
    ensures multiset(ids) == multiset(Subtree(users, root))
  {
    var working := Base(users, root);
    ids := working;
    ghost var k: nat := 0;
    while working != []
      invariant working == Level(users, root, k)
      invariant ids == UnionAll(users, root, k)
      decreases |users| - k
    {
      LevelsRunOut(users, root, k);
      working := Join(users, working);
      ids := ids + working;
      k := k + 1;
    }
    UnionIsSubtree(users, root, k);
  }

  lemma SubtreeEmptyIffUnknown(users: seq<User>, root: Id)
    requires Tree(users)
    ensures Subtree(users, root) != {} <==> Stored(users, root)
  {
    if Stored(users, root) {
      var i :| 0 <= i < |users| && users[i].id == root;
      assert At(users, root, i, 0) && root in Subtree(users, root);
    }
    if Subtree(users, root) != {} {
      var x :| x in Subtree(users, root);
      var i :| 0 <= i < |users| && Distance(users, root, i).Some? && users[i].id == x;
      DistanceBound(users, root, i);
    }
  }

  /** Two rows that invited each other: the query would never stop. Nothing but the tree rules this
      table out, since the recursive term removes no duplicates. */
  const CYCLE: seq<User> := [User(1, Member, Some(2), 0), User(2, Member, Some(1), 0)]

  lemma CycleTurns(w: seq<Id>)
    requires w == [1] || w == [2]
    ensures Join(CYCLE, w) == [3 - w[0]]
  {
    var u, v := CYCLE[0], CYCLE[1];
    assert CYCLE[1..] == [v] && [v][1..] == [] && w[1..] == [];
    assert JoinRow(u, w) == if w == [2] then [1] else [];
    assert JoinRow(v, w) == if w == [1] then [2] else [];
    assert Join([v], w) == JoinRow(v, w) + Join([], w);
  }

  lemma {:induction false} CyclesNeverRunOut(k: nat)
    ensures Level(CYCLE, 1, k) == [if k % 2 == 0 then 1 else 2]
    ensures !Tree(CYCLE)
  {
    if k > 0 {
      CyclesNeverRunOut(k - 1);
      CycleTurns(Level(CYCLE, 1, k - 1));
    } else {
      assert CYCLE[1..] == [User(2, Member, Some(1), 0)];
      assert Base(CYCLE, 1) == [1] + Base(CYCLE[1..], 1);
      assert Base(CYCLE[1..], 1) == [] + Base([], 1);
    }
  }
}
