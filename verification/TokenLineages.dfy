/** Lineages under interleaving. Two refreshes that read the same token before either commits fork its lineage, so that
    two of its tokens are live. Exactly when that happens is proved here for every schedule of module
    TokenInterleaving. */
module TokenLineages {
  import opened Basics
  import opened Domain
  import opened Tables
  import opened TokenInterleaving

  /** The id of the first token of a lineage stands for the lineage. */
  predicate SameLine(first: map<Id, TokenRow>, j: Id, k: Id) {
    j in first && k in first && first[j].id == first[k].id
  }

  predicate Live(s: System, k: Id) { k in s.tokens && !s.tokens[k].IsRevoked() }

  ghost predicate AtMostOneLive(s: System) {
    forall j, k :: Live(s, j) && Live(s, k) && SameLine(s.first, j, k) ==> j == k
  }

  predicate DeadLine(s: System, k: Id) { forall j :: j in s.tokens && SameLine(s.first, j, k) ==> !Live(s, j) }

  /** The token a refresh presents is still live when the refresh commits, or nothing of its lineage is; the commit then
      brings the lineage back to life (see module TokenRevocations). */
  predicate InTurn(s: System, tx: nat) {
    tx in s.txs && s.txs[tx].plan.Refresh? ==> forall k :: k in s.txs[tx].copies ==> Live(s, k) || DeadLine(s, k)
  }

  // ---- every moment of a schedule ----

  ghost predicate AlwaysAtMostOneLive(start: System, actions: seq<Action>)
    requires Schedule(start, actions)
    decreases |actions|
  {
    AtMostOneLive(After(start, actions))
    && (actions != [] ==> AlwaysAtMostOneLive(start, actions[..|actions| - 1]))
  }

  ghost predicate AllInTurn(start: System, actions: seq<Action>)
    requires Schedule(start, actions)
    decreases |actions|
  {
    actions == []
    || (AllInTurn(start, actions[..|actions| - 1])
        && var last := actions[|actions| - 1];
           (last.Commit? ==> InTurn(After(start, actions[..|actions| - 1]), last.tx)))
  }

  // ---- what the transactions keep about lineages ----

  predicate FromTx(t: Tx, row: TokenRow) { row.id in t.copies || t.made == Some(row) }

  /** A successor belongs to the lineage of the token presented, a new session to a lineage of its own. */
  ghost predicate MadeLine(first: map<Id, TokenRow>, t: Tx, id: Id) {
    match t.plan
    case Issue(_, _, _, _) => forall j :: SameLine(first, j, id) ==> j == id
    case Refresh(_, _) => exists k :: Single(t.copies, k) && SameLine(first, k, id)
    case _ => false
  }

  ghost predicate LineTx(first: map<Id, TokenRow>, t: Tx) {
    && (t.made.Some? ==> t.made.value.id in first && MadeLine(first, t, t.made.value.id))
    && (t.plan.Issue? || t.stage.Begun? ==> t.copies == map[])
    && (t.plan.Refresh? && t.stage.Begun? ==> t.made.None?)
    && (t.stage.Saving? ==>
          && (t.plan.Refresh? ==> t.made.Some?)
          && (t.made.Some? ==> InBatch(t, t.made.value))
          && forall r :: r in t.written + t.pending ==> FromTx(t, r))
  }

  ghost predicate LineInv(s: System) {
    && (forall k :: k in s.first ==> s.first[k].id in s.first)
    && (forall i :: i in s.txs ==> LineTx(s.first, s.txs[i]))
  }

  lemma FindKeepsLine(first: map<Id, TokenRow>, t: Tx, copies: map<Id, TokenRow>)
    requires LineTx(first, t) && t.stage.Begun? && !t.plan.Issue?
    ensures LineTx(first, t.(stage := Found, copies := copies))
  {
    assert t.made.None?;
  }

  lemma RevokeKeepsLine(first: map<Id, TokenRow>, t: Tx, k: Id, row: TokenRow)
    requires LineTx(first, t) && t.stage.Found? && k in t.copies
    ensures LineTx(first, t.(copies := t.copies[k := row]))
  {
    if t.made.Some? && t.plan.Refresh? {
      var p :| Single(t.copies, p) && SameLine(first, p, t.made.value.id);
      assert Single(t.copies[k := row], p);
    }
  }

  lemma SavingKeepsLine(first: map<Id, TokenRow>, t: Tx, batch: seq<TokenRow>)
    requires LineTx(first, t) && ReadyToSave(t) && Batch(t, batch) && t.written == []
    ensures LineTx(first, t.(stage := Saving, pending := batch))
  {
    assert [] + batch == batch;
  }

  lemma UpsertKeepsLine(first: map<Id, TokenRow>, t: Tx)
    requires LineTx(first, t) && t.stage.Saving? && t.pending != []
    ensures LineTx(first, t.(pending := t.pending[1..], written := t.written + [t.pending[0]]))
  {
    assert (t.written + [t.pending[0]]) + t.pending[1..] == t.written + t.pending;
  }

  /** A transaction is not affected by an id drawn for another lineage. */
  lemma DrawKeepsLine(first: map<Id, TokenRow>, t: Tx, id: Id, line: TokenRow)
    requires LineTx(first, t) && id !in first
    requires t.made.Some? && t.plan.Issue? ==> line.id != first[t.made.value.id].id
    ensures LineTx(first[id := line], t)
  {
    var after := first[id := line];
    if t.made.Some? && t.plan.Refresh? {
      var k :| Single(t.copies, k) && SameLine(first, k, t.made.value.id);
      assert SameLine(after, k, t.made.value.id);
    }
    if t.made.Some? && t.plan.Issue? {
      forall j | SameLine(after, j, t.made.value.id) ensures j == t.made.value.id {
        assert SameLine(first, j, t.made.value.id);
      }
    }
  }

  lemma CopyKnown(s: System, t: Tx, k: Id)
    requires SystemInv(s) && TxInv(s, t) && k in t.copies
    ensures k in s.tokens && k in s.first
  {
    assert CopyOf(s.tokens, k, t.copies[k]) && Known(s, s.tokens[k]);
  }

  lemma SuccessorJoinsLine(first: map<Id, TokenRow>, t: Tx, k: Id, row: TokenRow)
    requires t.plan.Refresh? && t.stage.Found? && Single(t.copies, k) && k in first && row.id !in first
    ensures LineTx(first[row.id := first[k]], t.(made := Some(row)))
  {
    assert SameLine(first[row.id := first[k]], k, row.id);
    assert Single(t.(made := Some(row)).copies, k);
  }

  lemma SessionStartsLine(first: map<Id, TokenRow>, t: Tx, row: TokenRow)
    requires t.plan.Issue? && t.stage.Begun? && t.copies == map[] && row.id !in first
    requires forall j :: j in first ==> first[j].id in first
    ensures LineTx(first[row.id := row], t.(made := Some(row)))
  {
    assert forall j :: j in first ==> first[j].id != row.id;
  }

  lemma DrawMakesLine(s: System, tx: nat, id: Id, hash: string)
    requires SystemInv(s) && LineInv(s) && Enabled(s, Draw(tx, id, hash))
    ensures var after := Next(s, Draw(tx, id, hash)); LineTx(after.first, after.txs[tx])
  {
    var t := s.txs[tx];
    var row := NewRow(s.ttl, t, id, hash);
    if t.plan.Refresh? {
      CopyKnown(s, t, Presented(t));
      SuccessorJoinsLine(s.first, t, Presented(t), row);
    } else {
      assert LineTx(s.first, t);
      SessionStartsLine(s.first, t, row);
    }
  }

  lemma NotOfSession(first: map<Id, TokenRow>, o: Tx, p: Id)
    requires LineTx(first, o) && o.made.Some? && o.plan.Issue? && p in first && p != o.made.value.id
    ensures first[p].id != first[o.made.value.id].id
  {
    assert !SameLine(first, p, o.made.value.id);
  }

  lemma DrawIsOfOtherLine(s: System, tx: nat, id: Id, hash: string, o: Tx)
    requires SystemInv(s) && LineInv(s) && Enabled(s, Draw(tx, id, hash))
    requires LineTx(s.first, o) && TxInv(s, o) && o.made.Some? && o.plan.Issue?
    ensures Lineage(s, s.txs[tx], NewRow(s.ttl, s.txs[tx], id, hash)).id != s.first[o.made.value.id].id
  {
    var t := s.txs[tx];
    if t.plan.Refresh? {
      CopyKnown(s, t, Presented(t));
      NotOfSession(s.first, o, Presented(t));
    } else {
      assert s.first[o.made.value.id].id in s.first;
    }
  }

  lemma DrawKeepsOthers(s: System, tx: nat, id: Id, hash: string, i: nat)
    requires SystemInv(s) && LineInv(s) && Enabled(s, Draw(tx, id, hash)) && i in s.txs && i != tx
    ensures LineTx(Next(s, Draw(tx, id, hash)).first, s.txs[i])
  {
    var o := s.txs[i];
    assert TxInv(s, o) && LineTx(s.first, o);
    if o.made.Some? && o.plan.Issue? { DrawIsOfOtherLine(s, tx, id, hash, o); }
    DrawKeepsLine(s.first, o, id, Lineage(s, s.txs[tx], NewRow(s.ttl, s.txs[tx], id, hash)));
  }

  lemma DrawKeepsFirst(s: System, tx: nat, id: Id, hash: string, k: Id)
    requires SystemInv(s) && LineInv(s) && Enabled(s, Draw(tx, id, hash)) && k in Next(s, Draw(tx, id, hash)).first
    ensures var first := Next(s, Draw(tx, id, hash)).first; first[k].id in first
  {
    if s.txs[tx].plan.Refresh? { CopyKnown(s, s.txs[tx], Presented(s.txs[tx])); }
    if k in s.first { assert s.first[k].id in s.first; }
  }

  lemma DrawKeepsLines(s: System, tx: nat, id: Id, hash: string)
    requires SystemInv(s) && LineInv(s) && Enabled(s, Draw(tx, id, hash))
    ensures LineInv(Next(s, Draw(tx, id, hash)))
  {
    var after := Next(s, Draw(tx, id, hash));
    forall i | i in after.txs ensures LineTx(after.first, after.txs[i]) {
      if i == tx { DrawMakesLine(s, tx, id, hash); } else { DrawKeepsOthers(s, tx, id, hash, i); }
    }
    forall k | k in after.first ensures after.first[k].id in after.first { DrawKeepsFirst(s, tx, id, hash, k); }
  }

  lemma OneTxChanges(s: System, after: System, tx: nat, t: Tx)
    requires LineInv(s) && after.first == s.first && after.txs == s.txs[tx := t] && LineTx(s.first, t)
    ensures LineInv(after)
  {
  }

  lemma StepKeepsLines(s: System, a: Action)
    requires SystemInv(s) && LineInv(s) && Enabled(s, a)
    ensures LineInv(Next(s, a))
  {
    match a
    case Draw(tx, id, hash) => DrawKeepsLines(s, tx, id, hash);
    case Commit(_) =>
    case Abort(_) =>
    case _ =>
      OwnStepKeepsLine(s, a);
      OneTxChanges(s, Next(s, a), a.tx, Next(s, a).txs[a.tx]);
  }

  lemma OwnStepKeepsLine(s: System, a: Action)
    requires SystemInv(s) && LineInv(s) && Enabled(s, a) && !a.Draw? && !a.Commit? && !a.Abort?
    ensures var after := Next(s, a);
            && after.first == s.first && a.tx in after.txs && after.txs == s.txs[a.tx := after.txs[a.tx]]
            && LineTx(s.first, after.txs[a.tx])
  {
    if !a.Begin? { ReaderKeepsLine(s, a); }
  }

  lemma ReaderKeepsLine(s: System, a: Action)
    requires SystemInv(s) && LineInv(s) && Enabled(s, a) && (a.Find? || a.Revoke? || a.StartSaving? || a.Upsert?)
    ensures LineTx(s.first, Next(s, a).txs[a.tx])
  {
    var t, after := s.txs[a.tx], Next(s, a).txs[a.tx];
    assert TxInv(s, t);
    match a
    case Find(_) => FindKeepsLine(s.first, t, after.copies);
    case Revoke(_, k) => RevokeKeepsLine(s.first, t, k, after.copies[k]);
    case StartSaving(_, batch) => SavingKeepsLine(s.first, t, batch);
    case _ => UpsertKeepsLine(s.first, t);
  }

  // ---- commits ----

  lemma CommitOfRow(s: System, tx: nat, k: Id)
    requires SystemInv(s) && LineInv(s) && Enabled(s, Commit(tx)) && k in s.tokens
    ensures var after := Next(s, Commit(tx));
            k in after.tokens
            && (if k in s.txs[tx].copies then !Live(after, k) else after.tokens[k] == s.tokens[k])
  {
    var t := s.txs[tx];
    CommitEffect(s, tx);
    if k !in t.copies {
      assert t.written + t.pending == t.written && TxInv(s, t);
      RowUntouched(s.tokens, t.written, k);
    }
  }

  lemma CommitOfMade(s: System, tx: nat)
    requires SystemInv(s) && LineInv(s) && Enabled(s, Commit(tx)) && s.txs[tx].made.Some?
    ensures var id := s.txs[tx].made.value.id;
            id !in s.tokens && Live(Next(s, Commit(tx)), id)
  {
    var t := s.txs[tx];
    assert t.written + t.pending == t.written;
    assert TxInv(s, t) && Distinct(t.written);
    assert t.made.value in t.written by { assert InBatch(t, t.made.value); }
    var i :| 0 <= i < |t.written| && t.written[i] == t.made.value;
    RowWritten(s.tokens, t.written, i);
  }

  /** What is live after a commit: what was, but for the tokens read, and the token made. */
  lemma LiveAfter(s: System, tx: nat, k: Id)
    requires SystemInv(s) && LineInv(s) && Enabled(s, Commit(tx))
    ensures var t := s.txs[tx];
            Live(Next(s, Commit(tx)), k)
            <==> (Live(s, k) && k !in t.copies) || (t.made.Some? && k == t.made.value.id)
  {
    CommitEffect(s, tx);
    if s.txs[tx].made.Some? { CommitOfMade(s, tx); }
    if k in s.tokens { CommitOfRow(s, tx, k); }
  }

  /** Committing anything but a refresh adds at most the first token of a new lineage. */
  lemma OtherCommitsForkNothing(s: System, tx: nat)
    requires SystemInv(s) && LineInv(s) && Enabled(s, Commit(tx)) && AtMostOneLive(s) && !s.txs[tx].plan.Refresh?
    ensures AtMostOneLive(Next(s, Commit(tx)))
  {
    var t, after := s.txs[tx], Next(s, Commit(tx));
    assert LineTx(s.first, t);
    forall j, k | Live(after, j) && Live(after, k) && SameLine(after.first, j, k) ensures j == k {
      LiveAfter(s, tx, j);
      LiveAfter(s, tx, k);
      assert SameLine(s.first, k, j);
    }
  }

  lemma NoOtherLive(s: System, spent: Id, k: Id, copies: map<Id, TokenRow>)
    requires AtMostOneLive(s) && Single(copies, spent) && (Live(s, spent) || DeadLine(s, spent))
    ensures k !in copies && SameLine(s.first, k, spent) ==> !Live(s, k)
  {
  }

  lemma RefreshInTurnForksNothing(s: System, tx: nat, spent: Id)
    requires SystemInv(s) && LineInv(s) && Enabled(s, Commit(tx)) && AtMostOneLive(s)
    requires s.txs[tx].made.Some? && Single(s.txs[tx].copies, spent)
    requires SameLine(s.first, spent, s.txs[tx].made.value.id) && (Live(s, spent) || DeadLine(s, spent))
    ensures AtMostOneLive(Next(s, Commit(tx)))
  {
    var n, after := s.txs[tx].made.value.id, Next(s, Commit(tx));
    forall j, k | Live(after, j) && Live(after, k) && SameLine(after.first, j, k) ensures j == k {
      LiveAfter(s, tx, j);
      LiveAfter(s, tx, k);
      if j != n && k != n {
        assert Live(s, j) && Live(s, k) && SameLine(s.first, j, k);
      } else if j == n && k != n {
        NoOtherLive(s, spent, k, s.txs[tx].copies);
      } else if k == n && j != n {
        NoOtherLive(s, spent, j, s.txs[tx].copies);
      }
    }
  }

  lemma NotSingle(copies: map<Id, TokenRow>, k: Id, j: Id)
    requires Single(copies, k) && j != k
    ensures j !in copies
  {
  }

  lemma TwoLive(s: System, j: Id, k: Id)
    requires Live(s, j) && Live(s, k) && SameLine(s.first, j, k) && j != k
    ensures !AtMostOneLive(s)
  {
  }

  lemma RefreshOutOfTurnForks(s: System, tx: nat, spent: Id, j: Id)
    requires SystemInv(s) && LineInv(s) && Enabled(s, Commit(tx))
    requires s.txs[tx].made.Some? && Single(s.txs[tx].copies, spent)
    requires SameLine(s.first, spent, s.txs[tx].made.value.id)
    requires !Live(s, spent) && Live(s, j) && SameLine(s.first, j, spent)
    ensures !AtMostOneLive(Next(s, Commit(tx)))
  {
    var n, after := s.txs[tx].made.value.id, Next(s, Commit(tx));
    NotSingle(s.txs[tx].copies, spent, j);
    assert Live(after, j) by { LiveAfter(s, tx, j); }
    assert Live(after, n) && n !in s.tokens by { CommitOfMade(s, tx); }
    TwoLive(after, j, n);
  }

  lemma InTurnOfPresented(s: System, tx: nat, spent: Id)
    requires tx in s.txs && s.txs[tx].plan.Refresh? && Single(s.txs[tx].copies, spent)
    ensures InTurn(s, tx) <==> Live(s, spent) || DeadLine(s, spent)
  {
  }

  lemma RefreshForksExactly(s: System, tx: nat, spent: Id)
    requires SystemInv(s) && LineInv(s) && Enabled(s, Commit(tx)) && AtMostOneLive(s)
    requires s.txs[tx].made.Some? && Single(s.txs[tx].copies, spent)
    requires SameLine(s.first, spent, s.txs[tx].made.value.id)
    ensures AtMostOneLive(Next(s, Commit(tx))) <==> Live(s, spent) || DeadLine(s, spent)
  {
    if Live(s, spent) || DeadLine(s, spent) {
      RefreshInTurnForksNothing(s, tx, spent);
    } else {
      var j :| j in s.tokens && SameLine(s.first, j, spent) && Live(s, j);
      RefreshOutOfTurnForks(s, tx, spent, j);
    }
  }

  /** A commit forks no lineage exactly if the token was presented in turn. */
  lemma CommitForksExactly(s: System, tx: nat)
    requires SystemInv(s) && LineInv(s) && Enabled(s, Commit(tx)) && AtMostOneLive(s)
    ensures AtMostOneLive(Next(s, Commit(tx))) <==> InTurn(s, tx)
  {
    var t := s.txs[tx];
    if t.plan.Refresh? {
      assert LineTx(s.first, t);
      var spent :| Single(t.copies, spent) && SameLine(s.first, spent, t.made.value.id);
      InTurnOfPresented(s, tx, spent);
      RefreshForksExactly(s, tx, spent);
    } else {
      OtherCommitsForkNothing(s, tx);
    }
  }

  lemma OtherStepsForkNothing(s: System, a: Action)
    requires SystemInv(s) && Enabled(s, a) && AtMostOneLive(s) && !a.Commit?
    ensures AtMostOneLive(Next(s, a))
  {
    var after := Next(s, a);
    forall j, k | Live(after, j) && Live(after, k) && SameLine(after.first, j, k) ensures j == k {
      assert s.tokens[j].id == j && Known(s, s.tokens[j]);
      assert s.tokens[k].id == k && Known(s, s.tokens[k]);
      assert Live(s, j) && Live(s, k) && SameLine(s.first, j, k);
    }
  }

  lemma StepForksExactly(s: System, a: Action)
    requires SystemInv(s) && LineInv(s) && Enabled(s, a) && AtMostOneLive(s)
    ensures AtMostOneLive(Next(s, a)) <==> (a.Commit? ==> InTurn(s, a.tx))
  {
    if a.Commit? { CommitForksExactly(s, a.tx); } else { OtherStepsForkNothing(s, a); }
  }

  lemma {:induction false} ScheduleKeepsLines(start: System, actions: seq<Action>)
    requires Start(start) && Schedule(start, actions)
    ensures SystemInv(After(start, actions)) && LineInv(After(start, actions))
    decreases |actions|
  {
    ScheduleKeepsInv(start, actions);
    if actions != [] {
      var before := actions[..|actions| - 1];
      ScheduleKeepsLines(start, before);
      StepKeepsLines(After(start, before), actions[|actions| - 1]);
    }
  }

  /** No lineage ever has two live tokens, at any moment of a schedule, exactly if every refresh that commits presented
      a token that is still live at the commit or whose lineage has died. */
  lemma {:induction false} LineagesForkExactly(start: System, actions: seq<Action>)
    requires Start(start) && Schedule(start, actions)
    ensures AlwaysAtMostOneLive(start, actions) <==> AllInTurn(start, actions)
    decreases |actions|
  {
    if actions != [] {
      var before := actions[..|actions| - 1];
      LineagesForkExactly(start, before);
      ScheduleKeepsLines(start, before);
      if AlwaysAtMostOneLive(start, before) {
        AlwaysNow(start, before);
        StepForksExactly(After(start, before), actions[|actions| - 1]);
      }
    }
  }

  lemma AlwaysNow(start: System, actions: seq<Action>)
    requires Schedule(start, actions) && AlwaysAtMostOneLive(start, actions)
    ensures AtMostOneLive(After(start, actions))
  {
  }

  // ---- a schedule that forks a lineage ----

  lemma Extend(start: System, xs: seq<Action>, a: Action)
    requires Schedule(start, xs) && Enabled(After(start, xs), a)
    ensures Schedule(start, xs + [a]) && After(start, xs + [a]) == Next(After(start, xs), a)
  {
    assert (xs + [a])[..|xs|] == xs;
  }

  /** A refresh that has read its token, as yet unchanged in its hands. */
  predicate HasRead(s: System, tx: nat, hash: string, now: Time, row: TokenRow) {
    tx in s.txs && s.txs[tx] == Tx(Refresh(hash, now), Found, map[row.id := row], None, [], [])
    && row.id in s.tokens && row.id in s.first && !row.IsRevoked()
  }

  function Spent(row: TokenRow, now: Time): TokenRow { row.(revokedAt := Some(now)) }

  function Successor(row: TokenRow, id: Id, hash: string, now: Time): TokenRow {
    row.(id := id, tokenHash := hash, revokedAt := None, createdAt := now)
  }

  ghost function Finished(s: System, tx: nat, now: Time, row: TokenRow, id: Id, hash: string): System
    requires row.id in s.tokens && row.id in s.first
  {
    s.(tokens := s.tokens[row.id := Spent(s.tokens[row.id], now)][id := Successor(row, id, hash, now)],
       first := s.first[id := s.first[row.id]], txs := s.txs - {tx})
  }

  lemma DrawNext(s: System, tx: nat, presented: string, now: Time, row: TokenRow, id: Id, hash: string)
    requires HasRead(s, tx, presented, now, row) && id !in s.first
    ensures Enabled(s, Draw(tx, id, hash))
    ensures var t := Tx(Refresh(presented, now), Found, map[row.id := row],
                        Some(Successor(row, id, hash, now)), [], []);
            Next(s, Draw(tx, id, hash)) == s.(first := s.first[id := s.first[row.id]], txs := s.txs[tx := t])
  {
    var t := s.txs[tx];
    assert Single(t.copies, row.id);
    assert Presented(t) == row.id;
  }

  lemma RevokeNext(s: System, tx: nat, t: Tx, row: TokenRow)
    requires tx in s.txs && s.txs[tx] == t && t.stage.Found? && t.copies == map[row.id := row] && !row.IsRevoked()
    requires t.plan.Refresh? ==> t.made.Some?
    ensures Enabled(s, Revoke(tx, row.id))
    ensures Next(s, Revoke(tx, row.id)) == Staged(s, tx, t.(copies := map[row.id := Spent(row, t.plan.now)]))
  {
    assert t.copies[row.id := Spent(row, t.plan.now)] == map[row.id := Spent(row, t.plan.now)];
  }

  /** Drawing and revoking, in memory. */
  lemma RefreshPrepares(start: System, xs: seq<Action>, tx: nat, presented: string, now: Time, row: TokenRow, id: Id,
      hash: string)
    returns (ys: seq<Action>)
    requires Schedule(start, xs) && HasRead(After(start, xs), tx, presented, now, row) && id !in After(start, xs).first
    ensures var s := After(start, xs);
            var t := Tx(Refresh(presented, now), Found, map[row.id := Spent(row, now)],
                        Some(Successor(row, id, hash, now)), [], []);
            && xs <= ys && Schedule(start, ys)
            && After(start, ys) == s.(first := s.first[id := s.first[row.id]], txs := s.txs[tx := t])
  {
    var s := After(start, xs);
    DrawNext(s, tx, presented, now, row, id, hash);
    Extend(start, xs, Draw(tx, id, hash));
    ys := xs + [Draw(tx, id, hash)];
    var drawn := After(start, ys);
    RevokeNext(drawn, tx, drawn.txs[tx], row);
    Extend(start, ys, Revoke(tx, row.id));
    ys := ys + [Revoke(tx, row.id)];
    assert s.txs[tx := After(start, ys).txs[tx]] == After(start, ys).txs;
  }

  /** No other transaction has written anything. */
  predicate OthersIdle(s: System, tx: nat) { forall i :: i in s.txs && i != tx ==> s.txs[i].written == [] }

  lemma StagedTwice(s: System, tx: nat, t: Tx, u: Tx)
    ensures Staged(Staged(s, tx, t), tx, u) == Staged(s, tx, u)
  {
    assert s.txs[tx := t][tx := u] == s.txs[tx := u];
  }

  lemma UpsertNext(start: System, xs: seq<Action>, s: System, tx: nat, t: Tx, row: TokenRow, rest: seq<TokenRow>)
    returns (ys: seq<Action>)
    requires Schedule(start, xs) && tx in s.txs && After(start, xs) == Staged(s, tx, t) && OthersIdle(s, tx)
    requires t.stage.Saving? && t.pending == [row] + rest && (row.id in s.tokens || !HashTaken(s.tokens, row.tokenHash))
    ensures xs <= ys && Schedule(start, ys)
    ensures After(start, ys) == Staged(s, tx, t.(pending := rest, written := t.written + [row]))
  {
    assert t.pending[1..] == rest;
    assert Unlocked(After(start, xs), tx, row);
    Extend(start, xs, Upsert(tx));
    ys := xs + [Upsert(tx)];
    assert After(start, ys).txs == s.txs[tx := t.(pending := rest, written := t.written + [row])];
  }

  lemma TwoInBatch(t: Tx, spent: TokenRow, made: TokenRow)
    requires t.copies == map[spent.id := spent] && t.made == Some(made) && spent.id != made.id
    ensures Batch(t, [spent, made])
  {
  }

  lemma OneInBatch(t: Tx, spent: TokenRow)
    requires t.copies == map[spent.id := spent] && t.made.None?
    ensures Batch(t, [spent])
  {
  }

  /** Executing the batch of a refresh. */
  lemma RefreshWrites(start: System, xs: seq<Action>, tx: nat, p: Plan, spent: TokenRow, made: TokenRow)
    returns (ys: seq<Action>)
    requires Schedule(start, xs) && p.Refresh? && spent.id != made.id && spent.IsRevoked()
    requires var s := After(start, xs);
             && tx in s.txs && s.txs[tx] == Tx(p, Found, map[spent.id := spent], Some(made), [], [])
             && OthersIdle(s, tx)
             && spent.id in s.tokens && made.id !in s.tokens && !HashTaken(s.tokens, made.tokenHash)
    ensures var s := After(start, xs);
            && xs <= ys && Schedule(start, ys)
            && After(start, ys) == Staged(s, tx, Tx(p, Saving, map[spent.id := spent], Some(made), [], [spent, made]))
  {
    var s, batch := After(start, xs), [spent, made];
    TwoInBatch(s.txs[tx], spent, made);
    Extend(start, xs, StartSaving(tx, batch));
    ys := xs + [StartSaving(tx, batch)];
    var t := Tx(p, Saving, map[spent.id := spent], Some(made), batch, []);
    assert batch == [spent] + [made] && [made] == [made] + [];
    ys := UpsertNext(start, ys, s, tx, t, spent, [made]);
    ys := UpsertNext(start, ys, s, tx, t.(pending := [made], written := [] + [spent]), made, []);
    assert ([] + [spent]) + [made] == batch;
  }

  /** Saving and committing the two rows. */
  lemma RefreshSaves(start: System, xs: seq<Action>, tx: nat, p: Plan, spent: TokenRow, made: TokenRow)
    returns (ys: seq<Action>)
    requires Schedule(start, xs) && p.Refresh? && spent.id != made.id && spent.IsRevoked()
    requires var s := After(start, xs);
             && tx in s.txs && s.txs[tx] == Tx(p, Found, map[spent.id := spent], Some(made), [], [])
             && OthersIdle(s, tx)
             && spent.id in s.tokens && made.id !in s.tokens && !HashTaken(s.tokens, made.tokenHash)
    ensures var s := After(start, xs);
            && xs <= ys && Schedule(start, ys)
            && After(start, ys) == s.(tokens := Written(Written(s.tokens, spent), made), txs := s.txs - {tx})
  {
    var s := After(start, xs);
    ys := RefreshWrites(start, xs, tx, p, spent, made);
    Extend(start, ys, Commit(tx));
    ys := ys + [Commit(tx)];
    TwoWritten(s.tokens, spent, made);
    assert After(start, ys).txs == s.txs - {tx};
  }

  lemma TwoWritten(tokens: map<Id, TokenRow>, a: TokenRow, b: TokenRow)
    ensures AllWritten(tokens, [a, b]) == Written(Written(tokens, a), b)
  {
    assert [a, b][1..] == [b] && [b][1..] == [];
    assert AllWritten(tokens, [a, b]) == AllWritten(Written(tokens, a), [b]);
    assert AllWritten(Written(tokens, a), [b]) == AllWritten(Written(Written(tokens, a), b), []);
  }

  lemma RefreshFinishes(start: System, xs: seq<Action>, tx: nat, presented: string, now: Time, row: TokenRow, id: Id,
      hash: string)
    returns (ys: seq<Action>)
    requires Schedule(start, xs) && HasRead(After(start, xs), tx, presented, now, row)
    requires OthersIdle(After(start, xs), tx)
    requires id !in After(start, xs).first && id !in After(start, xs).tokens
    requires !HashTaken(After(start, xs).tokens, hash)
    ensures xs <= ys && Schedule(start, ys)
    ensures After(start, ys) == Finished(After(start, xs), tx, now, row, id, hash)
  {
    var s := After(start, xs);
    ys := RefreshPrepares(start, xs, tx, presented, now, row, id, hash);
    ys := RefreshSaves(start, ys, tx, Refresh(presented, now), Spent(row, now), Successor(row, id, hash, now));
    assert After(start, ys).txs == s.txs - {tx};
  }

  const FIRST := TokenRow(1, 7, "a", "phone", "10.0.0.1", 10, None, 0)
  const NOTHING := System(10, map[], map[], map[])
  const ISSUED := System(10, map[1 := FIRST], map[1 := FIRST], map[])
  const READER := Tx(Refresh("a", 1), Found, map[1 := FIRST], None, [], [])
  const BOTH_READ := System(10, map[1 := FIRST], map[1 := FIRST], map[1 := READER, 2 := READER])

  lemma FirstIssued() returns (xs: seq<Action>)
    ensures Schedule(NOTHING, xs) && After(NOTHING, xs) == ISSUED
  {
    var p := Issue(7, "phone", "10.0.0.1", 0);
    Extend(NOTHING, [], Begin(0, p));
    xs := [] + [Begin(0, p)];
    Extend(NOTHING, xs, Draw(0, 1, "a"));
    xs := xs + [Draw(0, 1, "a")];
    var drawn := After(NOTHING, xs);
    assert drawn.txs[0] == Tx(p, Begun, map[], Some(FIRST), [], []) && drawn.first == ISSUED.first;
    Extend(NOTHING, xs, StartSaving(0, [FIRST]));
    xs := xs + [StartSaving(0, [FIRST])];
    Extend(NOTHING, xs, Upsert(0));
    xs := xs + [Upsert(0)];
    var saved := After(NOTHING, xs);
    assert saved.txs[0].pending == [] && saved.txs[0].written == [FIRST];
    Extend(NOTHING, xs, Commit(0));
    xs := xs + [Commit(0)];
    assert [FIRST][1..] == [];
    var end := After(NOTHING, xs);
    assert end.tokens == AllWritten(map[], [FIRST]) == ISSUED.tokens;
    assert end.txs == ISSUED.txs;
  }

  lemma FindNext(s: System, tx: nat, p: Plan, row: TokenRow)
    requires tx in s.txs && s.txs[tx] == Tx(p, Begun, map[], None, [], []) && !p.Issue?
    requires row.id in s.tokens && s.tokens[row.id] == row
    requires forall k :: k in s.tokens ==> (Selects(p, k, s.tokens[k]) <==> k == row.id)
    ensures Enabled(s, Find(tx))
    ensures Next(s, Find(tx)) == Staged(s, tx, Tx(p, Found, map[row.id := row], None, [], []))
  {
    var copies := map k | k in s.tokens && Selects(p, k, s.tokens[k]) :: s.tokens[k];
    assert copies == map[row.id := row];
  }

  /** A lookup that selects one token. */
  lemma ReadsOne(start: System, xs: seq<Action>, tx: nat, p: Plan, row: TokenRow) returns (ys: seq<Action>)
    requires Schedule(start, xs) && tx !in After(start, xs).txs && !p.Issue?
    requires var tokens := After(start, xs).tokens;
             && row.id in tokens && tokens[row.id] == row
             && forall k :: k in tokens ==> (Selects(p, k, tokens[k]) <==> k == row.id)
    ensures xs <= ys && Schedule(start, ys)
    ensures After(start, ys) == Staged(After(start, xs), tx, Tx(p, Found, map[row.id := row], None, [], []))
  {
    var s := After(start, xs);
    Extend(start, xs, Begin(tx, p));
    ys := xs + [Begin(tx, p)];
    FindNext(After(start, ys), tx, p, row);
    Extend(start, ys, Find(tx));
    ys := ys + [Find(tx)];
    assert After(start, ys).txs == s.txs[tx := Tx(p, Found, map[row.id := row], None, [], [])];
  }

  lemma BothRead() returns (xs: seq<Action>)
    ensures Schedule(NOTHING, xs) && After(NOTHING, xs) == BOTH_READ
  {
    xs := FirstIssued();
    xs := ReadsOne(NOTHING, xs, 1, Refresh("a", 1), FIRST);
    xs := ReadsOne(NOTHING, xs, 2, Refresh("a", 1), FIRST);
    assert After(NOTHING, xs).txs == BOTH_READ.txs;
  }

  /** One token is issued, two refreshes read it, and both go on to commit: its lineage has two live tokens. */
  lemma TwoRefreshesForkALineage() returns (actions: seq<Action>)
    ensures Start(NOTHING) && Schedule(NOTHING, actions)
    ensures !AtMostOneLive(After(NOTHING, actions)) && !AllInTurn(NOTHING, actions)
  {
    actions := BothRead();
    actions := RefreshFinishes(NOTHING, actions, 1, "a", 1, FIRST, 2, "b");
    var s := After(NOTHING, actions);
    assert s == Finished(BOTH_READ, 1, 1, FIRST, 2, "b");
    assert s.txs.Keys == {2} && s.txs[2] == READER;
    actions := RefreshFinishes(NOTHING, actions, 2, "a", 1, FIRST, 3, "c");
    var end := After(NOTHING, actions);
    assert end == Finished(s, 2, 1, FIRST, 3, "c");
    assert Live(end, 2) && Live(end, 3) && SameLine(end.first, 2, 3);
    LineagesForkExactly(NOTHING, actions);
  }
}
