/** What a revocation of sessions misses under interleaving. It revokes what its lookup found, so a session committed
    between lookup and commit is left; and a refresh that read its token before brings a dead lineage back to life.
    Exactly when either happens is proved for every schedule of module TokenInterleaving. */
module TokenRevocations {
  import opened Basics
  import opened Domain
  import opened Tables
  import opened TokenInterleaving
  import opened TokenLineages

  // ---- sessions that slip through ----

  /** The transaction that commits at `n` looked its tokens up at `m`. */
  predicate Spans(actions: seq<Action>, tx: nat, m: nat, n: nat) {
    && m < n < |actions| && actions[m] == Find(tx) && actions[n] == Commit(tx)
    && StillOpen(actions[..n], tx, m)
  }

  predicate StillOpen(actions: seq<Action>, tx: nat, m: nat) {
    forall i :: m < i < |actions| ==> actions[i] != Commit(tx) && actions[i] != Abort(tx)
  }

  lemma StepKeepsCopies(s: System, a: Action, tx: nat)
    requires tx in s.txs && !s.txs[tx].stage.Begun? && Enabled(s, a) && a != Commit(tx) && a != Abort(tx)
    ensures tx in Next(s, a).txs && !Next(s, a).txs[tx].stage.Begun?
    ensures Next(s, a).txs[tx].plan == s.txs[tx].plan && Next(s, a).txs[tx].copies.Keys == s.txs[tx].copies.Keys
  {
  }

  /** The objects a transaction works on are those of the rows its lookup selected. */
  ghost predicate ReadAt(found: System, s: System, tx: nat) {
    && tx in s.txs && tx in found.txs && !s.txs[tx].stage.Begun? && s.txs[tx].plan == found.txs[tx].plan
    && forall k :: k in s.txs[tx].copies <==> k in found.tokens && Selects(s.txs[tx].plan, k, found.tokens[k])
  }

  lemma {:induction false} CopiesSinceFind(start: System, actions: seq<Action>, tx: nat, m: nat)
    requires Schedule(start, actions) && m < |actions| && actions[m] == Find(tx) && StillOpen(actions, tx, m)
    ensures Schedule(start, actions[..m]) && ReadAt(After(start, actions[..m]), After(start, actions), tx)
    decreases |actions|
  {
    var front, last := actions[..|actions| - 1], actions[|actions| - 1];
    if m < |front| {
      assert front[..m] == actions[..m];
      CopiesSinceFind(start, front, tx, m);
      StepKeepsCopies(After(start, front), last, tx);
    }
  }

  /** Not stored at the lookup, active at the commit. */
  predicate Slipped(found: System, s: System, users: set<Id>, now: Time, k: Id) {
    k !in found.tokens && k in s.tokens && Active(s.tokens[k], users, now)
  }

  predicate NoneSlipped(found: System, s: System, users: set<Id>, now: Time) {
    forall k :: k in s.tokens ==> !Slipped(found, s, users, now, k)
  }

  predicate NoneActive(tokens: map<Id, TokenRow>, users: set<Id>, now: Time) {
    forall k :: k in tokens ==> !Active(tokens[k], users, now)
  }

  lemma NoneActiveIsNoneValid(tokens: map<Id, TokenRow>, users: set<Id>, now: Time)
    ensures NoneActive(tokens, users, now) <==> NoneValidFrom(tokens, users, now)
  {
    if NoneValidFrom(tokens, users, now) {
      forall k | k in tokens ensures !Active(tokens[k], users, now) {
        assert tokens[k].userId in users ==> !tokens[k].IsValid(now);
      }
    }
  }

  lemma ActiveBefore(a: TokenRow, b: TokenRow, users: set<Id>, now: Time)
    requires SameToken(a, b) && (a.IsRevoked() ==> b.IsRevoked()) && Active(b, users, now)
    ensures Active(a, users, now)
  {
  }

  /** The rows active at the commit are those read and those that slipped through. */
  lemma ReadOrSlipped(found: System, s: System, tx: nat, users: set<Id>, now: Time, k: Id)
    requires ReadAt(found, s, tx) && s.txs[tx].plan == RevokeMany(users, now) && Final(found.tokens, s.tokens)
    requires k in s.tokens && Active(s.tokens[k], users, now)
    ensures k in s.txs[tx].copies <==> !Slipped(found, s, users, now, k)
  {
    if k in found.tokens { ActiveBefore(found.tokens[k], s.tokens[k], users, now); }
  }

  /** What the commit of a revocation leaves of a row. */
  lemma RevocationOfRow(found: System, s: System, tx: nat, users: set<Id>, now: Time, k: Id)
    requires SystemInv(s) && LineInv(s) && Enabled(s, Commit(tx)) && k in s.tokens
    requires ReadAt(found, s, tx) && s.txs[tx].plan == RevokeMany(users, now) && Final(found.tokens, s.tokens)
    ensures k in Next(s, Commit(tx)).tokens
    ensures Active(Next(s, Commit(tx)).tokens[k], users, now) <==> Slipped(found, s, users, now, k)
  {
    CommitOfRow(s, tx, k);
    if Active(s.tokens[k], users, now) {
      ReadOrSlipped(found, s, tx, users, now, k);
    } else {
      CommitEffect(s, tx);
      assert SameToken(s.tokens[k], Next(s, Commit(tx)).tokens[k]);
    }
  }

  lemma RevocationAddsNothing(s: System, tx: nat, k: Id)
    requires SystemInv(s) && LineInv(s) && Enabled(s, Commit(tx)) && s.txs[tx].plan.RevokeMany?
    ensures k in Next(s, Commit(tx)).tokens ==> k in s.tokens
  {
    CommitEffect(s, tx);
    assert LineTx(s.first, s.txs[tx]);
  }

  lemma CommitMissesExactly(found: System, s: System, tx: nat, users: set<Id>, now: Time)
    requires SystemInv(s) && LineInv(s) && Enabled(s, Commit(tx))
    requires ReadAt(found, s, tx) && s.txs[tx].plan == RevokeMany(users, now) && Final(found.tokens, s.tokens)
    ensures NoneActive(Next(s, Commit(tx)).tokens, users, now) <==> NoneSlipped(found, s, users, now)
  {
    var after := Next(s, Commit(tx)).tokens;
    forall k ensures k in after && Active(after[k], users, now) <==> Slipped(found, s, users, now, k) {
      RevocationAddsNothing(s, tx, k);
      if k in s.tokens { RevocationOfRow(found, s, tx, users, now, k); }
    }
  }

  /** A committed revocation leaves the users no session, among those stored, that is valid then or later, exactly if no
      session of theirs was committed between its lookup and its commit and is still active. */
  lemma RevocationMissesExactly(start: System, actions: seq<Action>, tx: nat, m: nat, n: nat, users: set<Id>, now: Time)
    requires Start(start) && Schedule(start, actions) && Spans(actions, tx, m, n)
    requires Schedule(start, actions[..m]) && Schedule(start, actions[..n]) && Schedule(start, actions[..n + 1])
    requires tx in After(start, actions[..n]).txs && After(start, actions[..n]).txs[tx].plan == RevokeMany(users, now)
    ensures NoneValidFrom(After(start, actions[..n + 1]).tokens, users, now)
            <==> NoneSlipped(After(start, actions[..m]), After(start, actions[..n]), users, now)
  {
    var before := actions[..n];
    assert actions[..n + 1][..n] == before && before[..m] == actions[..m];
    ScheduleKeepsLines(start, before);
    CopiesSinceFind(start, before, tx, m);
    RevocationIsPermanent(start, before, m);
    CommitMissesExactly(After(start, actions[..m]), After(start, before), tx, users, now);
    NoneActiveIsNoneValid(After(start, actions[..n + 1]).tokens, users, now);
  }

  /** What is invalid from a time on at some moment of a schedule stays so. */
  lemma InvalidForGood(start: System, actions: seq<Action>, n: nat, users: set<Id>, now: Time, k: Id, later: Time)
    requires Start(start) && Schedule(start, actions) && n <= |actions| && Schedule(start, actions[..n])
    requires var tokens := After(start, actions[..n]).tokens;
             NoneValidFrom(tokens, users, now) && k in tokens && tokens[k].userId in users && later >= now
    ensures k in After(start, actions).tokens && !After(start, actions).tokens[k].IsValid(later)
  {
    RevocationIsPermanent(start, actions, n);
    var tokens := After(start, actions[..n]).tokens;
    assert SameToken(tokens[k], After(start, actions).tokens[k]) && !tokens[k].IsValid(later);
  }

  // ---- lineages that come back to life ----

  /** A refresh that has read a token of the lineage of `k`. */
  predicate ReadLine(s: System, tx: nat, k: Id) {
    tx in s.txs && s.txs[tx].plan.Refresh? && exists p :: p in s.txs[tx].copies && SameLine(s.first, p, k)
  }

  lemma LiveIsNotDead(s: System, n: Id, k: Id)
    requires Live(s, n) && SameLine(s.first, n, k)
    ensures !DeadLine(s, k)
  {
  }

  /** The token a refresh makes belongs to the lineage of what it read. */
  lemma MadeForLine(first: map<Id, TokenRow>, t: Tx, p: Id, k: Id)
    requires LineTx(first, t) && t.plan.Refresh? && t.made.Some? && p in t.copies && SameLine(first, p, k)
    ensures SameLine(first, t.made.value.id, k)
  {
    var q :| Single(t.copies, q) && SameLine(first, q, t.made.value.id);
    assert p in t.copies.Keys;
  }

  lemma CommitOfReader(s: System, tx: nat, k: Id)
    requires SystemInv(s) && LineInv(s) && Enabled(s, Commit(tx)) && ReadLine(s, tx, k)
    ensures !DeadLine(Next(s, Commit(tx)), k)
  {
    var t := s.txs[tx];
    assert LineTx(s.first, t);
    var p :| p in t.copies && SameLine(s.first, p, k);
    MadeForLine(s.first, t, p, k);
    CommitOfMade(s, tx);
    LiveIsNotDead(Next(s, Commit(tx)), t.made.value.id, k);
  }

  lemma MadeRowOfLine(s: System, tx: nat, k: Id)
    requires LineInv(s) && tx in s.txs && s.txs[tx].made.Some? && SameLine(s.first, s.txs[tx].made.value.id, k)
    ensures k == s.txs[tx].made.value.id || ReadLine(s, tx, k)
  {
    var t := s.txs[tx];
    assert LineTx(s.first, t) && SameLine(s.first, k, t.made.value.id);
    if t.plan.Refresh? {
      var q :| Single(t.copies, q) && SameLine(s.first, q, t.made.value.id);
      assert q in t.copies && SameLine(s.first, q, k);
    }
  }

  lemma OtherCommitsReviveNothing(s: System, tx: nat, k: Id)
    requires SystemInv(s) && LineInv(s) && Enabled(s, Commit(tx)) && !ReadLine(s, tx, k)
    requires k in s.tokens && DeadLine(s, k)
    ensures DeadLine(Next(s, Commit(tx)), k)
  {
    var after := Next(s, Commit(tx));
    forall j | j in after.tokens && SameLine(after.first, j, k) ensures !Live(after, j) {
      LiveAfter(s, tx, j);
      if s.txs[tx].made.Some? && j == s.txs[tx].made.value.id {
        CommitOfMade(s, tx);
        MadeRowOfLine(s, tx, k);
      }
    }
  }

  /** The lineages of the ids drawn before a step are not changed by it. */
  lemma LineStays(s: System, a: Action, j: Id, k: Id)
    requires Enabled(s, a) && j in s.first && k in s.first
    ensures SameLine(Next(s, a).first, j, k) <==> SameLine(s.first, j, k)
  {
  }

  lemma StoredIsDrawn(s: System, k: Id)
    requires SystemInv(s) && k in s.tokens
    ensures k in s.first
  {
    assert Known(s, s.tokens[k]);
  }

  lemma OtherStepsReviveNothing(s: System, a: Action, k: Id)
    requires SystemInv(s) && Enabled(s, a) && !a.Commit? && k in s.tokens && DeadLine(s, k)
    ensures DeadLine(Next(s, a), k)
  {
    var after := Next(s, a);
    assert after.tokens == s.tokens;
    StoredIsDrawn(s, k);
    forall j | j in after.tokens && SameLine(after.first, j, k) ensures !Live(after, j) {
      StoredIsDrawn(s, j);
      LineStays(s, a, j, k);
    }
  }

  lemma StepRevivesExactly(s: System, a: Action, k: Id)
    requires SystemInv(s) && LineInv(s) && Enabled(s, a) && k in s.tokens && DeadLine(s, k)
    ensures DeadLine(Next(s, a), k) <==> (a.Commit? ==> !ReadLine(s, a.tx, k))
  {
    if !a.Commit? {
      OtherStepsReviveNothing(s, a, k);
    } else if ReadLine(s, a.tx, k) {
      CommitOfReader(s, a.tx, k);
    } else {
      OtherCommitsReviveNothing(s, a.tx, k);
    }
  }

  lemma DeadLineIsNotFound(s: System, tx: nat, k: Id)
    requires SystemInv(s) && Enabled(s, Find(tx)) && k in s.tokens && DeadLine(s, k)
    ensures !ReadLine(Next(s, Find(tx)), tx, k)
  {
    var t := Next(s, Find(tx)).txs[tx];
    forall p | p in t.copies && t.plan.Refresh? ensures !SameLine(s.first, p, k) {
      assert Live(s, p);
    }
  }

  lemma OtherStepsReadNothing(s: System, a: Action, tx: nat, k: Id)
    requires SystemInv(s) && Enabled(s, a) && a != Find(tx) && k in s.first && ReadLine(Next(s, a), tx, k)
    ensures ReadLine(s, tx, k)
  {
    var after := Next(s, a);
    var p :| p in after.txs[tx].copies && SameLine(after.first, p, k);
    assert tx in s.txs && p in s.txs[tx].copies && s.txs[tx].plan.Refresh?;
    CopyKnown(s, s.txs[tx], p);
    LineStays(s, a, p, k);
  }

  /** No lookup for a refresh finds a token of a dead lineage. */
  lemma DeadLineIsNotRead(s: System, a: Action, tx: nat, k: Id)
    requires SystemInv(s) && Enabled(s, a) && k in s.tokens && DeadLine(s, k) && ReadLine(Next(s, a), tx, k)
    ensures ReadLine(s, tx, k)
  {
    StoredIsDrawn(s, k);
    if a == Find(tx) { DeadLineIsNotFound(s, tx, k); } else { OtherStepsReadNothing(s, a, tx, k); }
  }

  /** The lineage of `k` is dead at every moment from the `d`-th step on. */
  ghost predicate StaysDead(start: System, actions: seq<Action>, d: nat, k: Id)
    requires Schedule(start, actions)
    decreases |actions|
  {
    DeadLine(After(start, actions), k) && (|actions| > d ==> StaysDead(start, actions[..|actions| - 1], d, k))
  }

  /** From the `d`-th step on, when the state was `dead`, no refresh commits that had read a token of the lineage
      then. */
  ghost predicate NoRevival(start: System, actions: seq<Action>, d: nat, dead: System, k: Id)
    requires Schedule(start, actions)
    decreases |actions|
  {
    |actions| <= d
    || (NoRevival(start, actions[..|actions| - 1], d, dead, k)
        && var s, last := After(start, actions[..|actions| - 1]), actions[|actions| - 1];
           (last.Commit? ==> !(ReadLine(dead, last.tx, k) && ReadLine(s, last.tx, k))))
  }

  lemma DeadNow(start: System, actions: seq<Action>, d: nat, k: Id)
    requires Schedule(start, actions) && StaysDead(start, actions, d, k)
    ensures DeadLine(After(start, actions), k)
  {
  }

  lemma {:induction false} OnlyEarlierReaders(start: System, actions: seq<Action>, d: nat, tx: nat, k: Id)
    requires Start(start) && Schedule(start, actions) && d <= |actions| && Schedule(start, actions[..d])
    requires k in After(start, actions[..d]).tokens && StaysDead(start, actions, d, k)
    requires ReadLine(After(start, actions), tx, k)
    ensures ReadLine(After(start, actions[..d]), tx, k)
    decreases |actions|
  {
    if |actions| == d {
      assert actions[..d] == actions;
    } else {
      var front := actions[..|actions| - 1];
      assert front[..d] == actions[..d];
      ScheduleKeepsInv(start, front);
      RevocationIsPermanent(start, front, d);
      assert StaysDead(start, front, d, k);
      DeadNow(start, front, d, k);
      DeadLineIsNotRead(After(start, front), actions[|actions| - 1], tx, k);
      OnlyEarlierReaders(start, front, d, tx, k);
    }
  }

  /** A dead lineage stays dead exactly if no refresh commits that had read one of its tokens before. */
  lemma {:induction false} DeadLineStaysExactly(start: System, actions: seq<Action>, d: nat, k: Id)
    requires Start(start) && Schedule(start, actions) && d <= |actions| && Schedule(start, actions[..d])
    requires k in After(start, actions[..d]).tokens && DeadLine(After(start, actions[..d]), k)
    ensures StaysDead(start, actions, d, k) <==> NoRevival(start, actions, d, After(start, actions[..d]), k)
    decreases |actions|
  {
    if |actions| == d {
      assert actions[..d] == actions;
    } else {
      var front, last := actions[..|actions| - 1], actions[|actions| - 1];
      assert front[..d] == actions[..d];
      DeadLineStaysExactly(start, front, d, k);
      if StaysDead(start, front, d, k) {
        DeadNow(start, front, d, k);
        ScheduleKeepsLines(start, front);
        RevocationIsPermanent(start, front, d);
        StepRevivesExactly(After(start, front), last, k);
        if last.Commit? && ReadLine(After(start, front), last.tx, k) {
          OnlyEarlierReaders(start, front, d, last.tx, k);
        }
      }
    }
  }

  // ---- schedules in which both happen ----

  lemma RevokerStartsSaving(start: System, xs: seq<Action>, tx: nat, p: Plan, spent: TokenRow) returns (ys: seq<Action>)
    requires Schedule(start, xs) && (p.RevokeOne? || p.RevokeMany?) && spent.IsRevoked()
    requires var s := After(start, xs);
             tx in s.txs && s.txs[tx] == Tx(p, Found, map[spent.id := spent], None, [], [])
    ensures xs <= ys && Schedule(start, ys)
    ensures After(start, ys)
            == Staged(After(start, xs), tx, Tx(p, Saving, map[spent.id := spent], None, [spent], []))
  {
    OneInBatch(After(start, xs).txs[tx], spent);
    Extend(start, xs, StartSaving(tx, [spent]));
    ys := xs + [StartSaving(tx, [spent])];
  }

  /** Revoking that token and executing the batch. */
  lemma RevokerSaves(start: System, xs: seq<Action>, tx: nat, p: Plan, row: TokenRow) returns (ys: seq<Action>)
    requires Schedule(start, xs) && (p.RevokeOne? || p.RevokeMany?) && !row.IsRevoked()
    requires var s := After(start, xs);
             && tx in s.txs && s.txs[tx] == Tx(p, Found, map[row.id := row], None, [], [])
             && OthersIdle(s, tx) && row.id in s.tokens
    ensures xs <= ys && Schedule(start, ys)
    ensures var spent := Spent(row, p.now);
            After(start, ys) == Staged(After(start, xs), tx, Tx(p, Saving, map[row.id := spent], None, [], [spent]))
  {
    var s, spent := After(start, xs), Spent(row, p.now);
    var found := Tx(p, Found, map[row.id := spent], None, [], []);
    var saving := Tx(p, Saving, map[row.id := spent], None, [spent], []);
    RevokeNext(s, tx, s.txs[tx], row);
    Extend(start, xs, Revoke(tx, row.id));
    ys := xs + [Revoke(tx, row.id)];
    assert After(start, ys) == Staged(s, tx, found);
    ys := RevokerStartsSaving(start, ys, tx, p, spent);
    StagedTwice(s, tx, found, saving);
    assert saving.pending == [spent] + [] && saving.written + [spent] == [spent];
    ys := UpsertNext(start, ys, s, tx, saving, spent, []);
  }

  lemma RevokerCommits(start: System, xs: seq<Action>, tx: nat, p: Plan, copies: map<Id, TokenRow>, spent: TokenRow)
    requires Schedule(start, xs)
    requires var s := After(start, xs); tx in s.txs && s.txs[tx] == Tx(p, Saving, copies, None, [], [spent])
    ensures Schedule(start, xs + [Commit(tx)])
    ensures var s := After(start, xs);
            After(start, xs + [Commit(tx)]) == s.(tokens := Written(s.tokens, spent), txs := s.txs - {tx})
  {
    var tokens := After(start, xs).tokens;
    Extend(start, xs, Commit(tx));
    assert [spent][1..] == [];
    assert AllWritten(tokens, [spent]) == AllWritten(Written(tokens, spent), []);
  }

  lemma StillValid(tokens: map<Id, TokenRow>, users: set<Id>, from: Time, k: Id, later: Time)
    requires k in tokens && tokens[k].userId in users && later >= from && tokens[k].IsValid(later)
    ensures !NoneValidFrom(tokens, users, from)
  {
  }

  /** A session is found for revocation, refreshed, and only then revoked: its successor, stored before the revocation
      commits, is valid afterwards. */
  lemma SessionSlipsThrough() returns (xs: seq<Action>)
    ensures Start(NOTHING) && Schedule(NOTHING, xs) && Schedule(NOTHING, xs + [Commit(1)])
    ensures var s := After(NOTHING, xs);
            && 1 in s.txs && s.txs[1].plan == RevokeMany({7}, 1)
            && 2 in s.tokens && s.tokens[2].userId == 7
    ensures var tokens := After(NOTHING, xs + [Commit(1)]).tokens;
            2 in tokens && tokens[2].userId == 7 && tokens[2].IsValid(2) && !NoneValidFrom(tokens, {7}, 1)
  {
    var p := RevokeMany({7}, 1);
    xs := FirstIssued();
    xs := ReadsOne(NOTHING, xs, 1, p, FIRST);
    xs := ReadsOne(NOTHING, xs, 2, Refresh("a", 1), FIRST);
    var both := After(NOTHING, xs);
    assert both.txs.Keys == {1, 2};
    xs := RefreshFinishes(NOTHING, xs, 2, "a", 1, FIRST, 2, "b");
    assert After(NOTHING, xs) == Finished(both, 2, 1, FIRST, 2, "b");
    xs := RevokerSaves(NOTHING, xs, 1, p, FIRST);
    RevokerCommits(NOTHING, xs, 1, p, map[1 := Spent(FIRST, 1)], Spent(FIRST, 1));
    var tokens := After(NOTHING, xs + [Commit(1)]).tokens;
    StillValid(tokens, {7}, 1, 2, 2);
  }

  /** A refresh has read the token, then its owner ended the session. */
  const DEAD := System(10, map[1 := Spent(FIRST, 1)], map[1 := FIRST], map[1 := READER])

  lemma ReachDead() returns (xs: seq<Action>)
    ensures Schedule(NOTHING, xs) && After(NOTHING, xs) == DEAD
  {
    var p := RevokeOne(1, 7, 1);
    xs := FirstIssued();
    xs := ReadsOne(NOTHING, xs, 1, Refresh("a", 1), FIRST);
    xs := ReadsOne(NOTHING, xs, 2, p, FIRST);
    assert After(NOTHING, xs).txs.Keys == {1, 2};
    xs := RevokerSaves(NOTHING, xs, 2, p, FIRST);
    RevokerCommits(NOTHING, xs, 2, p, map[1 := Spent(FIRST, 1)], Spent(FIRST, 1));
    xs := xs + [Commit(2)];
    assert After(NOTHING, xs).txs == DEAD.txs;
  }

  /** From there the refresh commits, and the dead lineage lives again. */
  lemma RefreshRevivesDeadLine() returns (xs: seq<Action>, ys: seq<Action>)
    ensures Start(NOTHING) && Schedule(NOTHING, xs) && xs <= ys && Schedule(NOTHING, ys)
    ensures 1 in After(NOTHING, xs).tokens && DeadLine(After(NOTHING, xs), 1) && !DeadLine(After(NOTHING, ys), 1)
    ensures !NoRevival(NOTHING, ys, |xs|, After(NOTHING, xs), 1)
  {
    xs := ReachDead();
    ys := RefreshFinishes(NOTHING, xs, 1, "a", 1, FIRST, 2, "b");
    var end := After(NOTHING, ys);
    assert end == Finished(DEAD, 1, 1, FIRST, 2, "b");
    LiveIsNotDead(end, 2, 1);
    assert ys[..|xs|] == xs;
    DeadLineStaysExactly(NOTHING, ys, |xs|, 1);
  }
}
