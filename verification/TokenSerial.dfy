/** The transactions of module TokenInterleaving when no other is about: their steps add up to what the use cases do. */
module TokenSerial {
  import opened Basics
  import opened Domain
  import opened Tables
  import opened Environment
  import opened TokenInterleaving

  // ---- batches ----

  lemma {:induction false} WrittenLast(tokens: map<Id, TokenRow>, rows: seq<TokenRow>, row: TokenRow)
    ensures AllWritten(tokens, rows + [row]) == Written(AllWritten(tokens, rows), row)
    decreases |rows|
  {
    if rows == [] {
      assert [] + [row] == [row] && [row][1..] == [];
    } else {
      assert (rows + [row])[1..] == rows[1..] + [row];
      WrittenLast(Written(tokens, rows[0]), rows[1..], row);
    }
  }

  /** An accepted batch of upserts is the batch written row by row. */
  lemma {:induction false} BatchIsUpserts(t: Tables, rows: seq<TokenRow>)
    requires UpsertTokens(t, rows).Some?
    ensures UpsertTokens(t, rows).value == t.(tokens := AllWritten(t.tokens, rows))
    decreases |rows|
  {
    if rows != [] {
      var front, last := rows[..|rows| - 1], rows[|rows| - 1];
      BatchIsUpserts(t, front);
      WrittenIsUpsert(UpsertTokens(t, front).value, last);
      WrittenLast(t.tokens, front, last);
      assert rows == front + [last];
    }
  }

  // ---- one transaction on its own ----

  predicate AddsSession(p: Plan, ttl: Duration, before: map<Id, TokenRow>, after: map<Id, TokenRow>, id: Id,
      hash: string)
    requires p.Issue?
  {
    id !in before && after == before[id := TokenRow(id, p.user, hash, p.device, p.address, p.now + ttl, None, p.now)]
  }

  predicate Rotates(p: Plan, before: map<Id, TokenRow>, after: map<Id, TokenRow>, spent: Id, id: Id, hash: string)
    requires p.Refresh?
  {
    && spent in before && before[spent].tokenHash == p.hash && before[spent].IsValid(p.now) && id !in before
    && after == AfterRotation(before, spent, id, hash, p.now)
  }

  /** What a plan does to the tokens. */
  ghost predicate Effect(p: Plan, ttl: Duration, before: map<Id, TokenRow>, after: map<Id, TokenRow>) {
    match p
    case Issue(_, _, _, _) => exists id, hash :: AddsSession(p, ttl, before, after, id, hash)
    case Refresh(_, _) => exists spent, id, hash :: Rotates(p, before, after, spent, id, hash)
    case RevokeOne(token, user, now) =>
      after == if token in before && before[token].userId == user && !before[token].IsRevoked()
               then before[token := before[token].(revokedAt := Some(now))] else before
    case RevokeMany(users, now) => after == RevokeActive(before, users, now)
  }

  /** The actions of one transaction from its first step up to, not including, its end. */
  predicate Alone(actions: seq<Action>, tx: nat, plan: Plan) {
    && actions != [] && actions[0] == Begin(tx, plan)
    && forall i :: 0 < i < |actions| ==>
         actions[i].tx == tx && !actions[i].Begin? && !actions[i].Commit? && !actions[i].Abort?
  }

  predicate Chosen(p: Plan, tokens: map<Id, TokenRow>, k: Id) { k in tokens && Selects(p, k, tokens[k]) }

  predicate CopyOrRevoked(p: Plan, tokens: map<Id, TokenRow>, k: Id, copy: TokenRow) {
    Chosen(p, tokens, k) && (copy == tokens[k] || copy == tokens[k].(revokedAt := Some(p.now)))
  }

  ghost predicate MadeFits(p: Plan, ttl: Duration, t: Tx, row: TokenRow) {
    match p
    case Issue(user, device, address, now) =>
      t.copies == map[] && row == TokenRow(row.id, user, row.tokenHash, device, address, now + ttl, None, now)
    case Refresh(_, now) =>
      exists k :: Single(t.copies, k)
                  && row == t.copies[k].(id := row.id, tokenHash := row.tokenHash, revokedAt := None, createdAt := now)
    case _ => false
  }

  ghost predicate AloneInv(s: System, s': System, tx: nat, p: Plan) {
    && s'.tokens == s.tokens && s'.ttl == s.ttl && s'.txs.Keys == {tx}
    && var t := s'.txs[tx];
       && t.plan == p
       && (t.stage.Begun? ==> t.copies == map[] && (p.Issue? || t.made.None?))
       && (!t.stage.Saving? ==> t.written == [] && t.pending == [])
       && (!t.stage.Begun? && !p.Issue? ==> forall k :: Chosen(p, s.tokens, k) ==> k in t.copies)
       && (forall k :: k in t.copies ==> CopyOrRevoked(p, s.tokens, k, t.copies[k]))
       && (t.made.Some? ==> t.made.value.id !in s.tokens && MadeFits(p, s.ttl, t, t.made.value))
       && (t.stage.Saving? ==>
             && Batch(t, t.written + t.pending)
             && (forall k :: k in t.copies ==> t.copies[k].IsRevoked()) && (p.Issue? || p.Refresh? ==> t.made.Some?))
  }

  lemma AloneBegins(s: System, tx: nat, p: Plan)
    requires s.txs == map[] && Enabled(s, Begin(tx, p))
    ensures AloneInv(s, Next(s, Begin(tx, p)), tx, p)
  {
  }

  lemma AloneFinds(s: System, s': System, tx: nat, p: Plan)
    requires AloneInv(s, s', tx, p) && Enabled(s', Find(tx))
    ensures AloneInv(s, Next(s', Find(tx)), tx, p)
  {
  }

  lemma AloneDraws(s: System, s': System, tx: nat, p: Plan, id: Id, hash: string)
    requires AloneInv(s, s', tx, p) && SystemInv(s') && Enabled(s', Draw(tx, id, hash))
    ensures AloneInv(s, Next(s', Draw(tx, id, hash)), tx, p)
  {
    forall k | k in s'.tokens ensures k in s'.first { assert Known(s', s'.tokens[k]); }
    if p.Refresh? {
      var k :| Single(s'.txs[tx].copies, k);
      assert Presented(s'.txs[tx]) == k;
    }
  }

  lemma AloneRevokes(s: System, s': System, tx: nat, p: Plan, token: Id)
    requires AloneInv(s, s', tx, p) && Enabled(s', Revoke(tx, token))
    ensures AloneInv(s, Next(s', Revoke(tx, token)), tx, p)
  {
    var t, after := s'.txs[tx], Next(s', Revoke(tx, token)).txs[tx];
    assert CopyOrRevoked(p, s.tokens, token, t.copies[token]);
    if t.made.Some? && p.Refresh? {
      var k :| Single(t.copies, k)
               && t.made.value == t.copies[k].(id := t.made.value.id, tokenHash := t.made.value.tokenHash,
                                               revokedAt := None, createdAt := p.now);
      assert Single(after.copies, k);
    }
  }

  lemma AloneStartsSaving(s: System, s': System, tx: nat, p: Plan, batch: seq<TokenRow>)
    requires AloneInv(s, s', tx, p) && Enabled(s', StartSaving(tx, batch))
    ensures AloneInv(s, Next(s', StartSaving(tx, batch)), tx, p)
  {
    var t, after := s'.txs[tx], Next(s', StartSaving(tx, batch)).txs[tx];
    assert [] + batch == batch;
    assert after.copies == t.copies && after.made == t.made && after.written + after.pending == batch;
  }

  lemma AloneUpserts(s: System, s': System, tx: nat, p: Plan)
    requires AloneInv(s, s', tx, p) && Enabled(s', Upsert(tx))
    ensures AloneInv(s, Next(s', Upsert(tx)), tx, p)
  {
    var t := s'.txs[tx];
    assert (t.written + [t.pending[0]]) + t.pending[1..] == t.written + t.pending;
  }

  lemma AloneStep(s: System, s': System, tx: nat, p: Plan, a: Action)
    requires AloneInv(s, s', tx, p) && SystemInv(s') && Enabled(s', a) && a.tx == tx
    requires !a.Begin? && !a.Commit? && !a.Abort?
    ensures AloneInv(s, Next(s', a), tx, p)
  {
    match a
    case Find(_) => AloneFinds(s, s', tx, p);
    case Draw(_, id, hash) => AloneDraws(s, s', tx, p, id, hash);
    case Revoke(_, token) => AloneRevokes(s, s', tx, p, token);
    case StartSaving(_, batch) => AloneStartsSaving(s, s', tx, p, batch);
    case Upsert(_) => AloneUpserts(s, s', tx, p);
  }

  /** The copies revoked, the object constructed added, and nothing else changed. */
  ghost predicate WrittenBy(t: Tx, before: map<Id, TokenRow>, after: map<Id, TokenRow>) {
    && (forall k :: k in before ==>
          k in after && after[k] == if k in t.copies then before[k].(revokedAt := Some(t.plan.now)) else before[k])
    && (forall k :: k in after && k !in before ==> t.made == Some(after[k]) && after[k].id == k)
    && (t.made.Some? ==> t.made.value.id in after && after[t.made.value.id] == t.made.value)
  }

  lemma StoredRowWritten(s: System, s': System, tx: nat, p: Plan, k: Id)
    requires AloneInv(s, s', tx, p) && SystemInv(s) && s'.txs[tx].stage.Saving? && s'.txs[tx].pending == []
    requires k in s.tokens
    ensures var t := s'.txs[tx];
            var after := AllWritten(s.tokens, t.written);
            k in after && after[k] == if k in t.copies then s.tokens[k].(revokedAt := Some(p.now)) else s.tokens[k]
  {
    var t := s'.txs[tx];
    assert t.written + t.pending == t.written && s.tokens[k].id == k;
    if k in t.copies {
      assert CopyOrRevoked(p, s.tokens, k, t.copies[k]) && t.copies[k] in t.written;
      var i :| 0 <= i < |t.written| && t.written[i] == t.copies[k];
      RowWritten(s.tokens, t.written, i);
    } else {
      RowUntouched(s.tokens, t.written, k);
    }
  }

  lemma OnlyMadeRowIsNew(s: System, s': System, tx: nat, p: Plan, k: Id)
    requires AloneInv(s, s', tx, p) && SystemInv(s) && s'.txs[tx].stage.Saving? && s'.txs[tx].pending == []
    ensures var t := s'.txs[tx];
            var after := AllWritten(s.tokens, t.written);
            k in after && k !in s.tokens ==> t.made == Some(after[k]) && after[k].id == k
  {
    var t := s'.txs[tx];
    assert t.written + t.pending == t.written;
    BatchEffect(s.tokens, t.written);
  }

  lemma MadeRowWritten(s: System, s': System, tx: nat, p: Plan)
    requires AloneInv(s, s', tx, p) && SystemInv(s) && s'.txs[tx].stage.Saving? && s'.txs[tx].pending == []
    requires s'.txs[tx].made.Some?
    ensures var t := s'.txs[tx];
            var after := AllWritten(s.tokens, t.written);
            t.made.value.id in after && after[t.made.value.id] == t.made.value
  {
    var t := s'.txs[tx];
    assert t.written + t.pending == t.written && t.made.value in t.written;
    var i :| 0 <= i < |t.written| && t.written[i] == t.made.value;
    RowWritten(s.tokens, t.written, i);
  }

  lemma AloneWritten(s: System, s': System, tx: nat, p: Plan)
    requires AloneInv(s, s', tx, p) && SystemInv(s) && s'.txs[tx].stage.Saving? && s'.txs[tx].pending == []
    ensures WrittenBy(s'.txs[tx], s.tokens, AllWritten(s.tokens, s'.txs[tx].written))
  {
    var t := s'.txs[tx];
    if t.made.Some? { MadeRowWritten(s, s', tx, p); }
    forall k ensures var after := AllWritten(s.tokens, t.written);
                     k in after && k !in s.tokens ==> t.made == Some(after[k]) && after[k].id == k
    {
      OnlyMadeRowIsNew(s, s', tx, p, k);
    }
    forall k | k in s.tokens
      ensures var after := AllWritten(s.tokens, t.written);
              k in after && after[k] == if k in t.copies then s.tokens[k].(revokedAt := Some(p.now)) else s.tokens[k]
    {
      StoredRowWritten(s, s', tx, p, k);
    }
  }

  lemma RefreshEffect(t: Tx, ttl: Duration, before: map<Id, TokenRow>, after: map<Id, TokenRow>)
    requires WrittenBy(t, before, after) && t.plan.Refresh? && t.made.Some? && t.made.value.id !in before
    requires MadeFits(t.plan, ttl, t, t.made.value)
    requires forall k :: k in t.copies ==> CopyOrRevoked(t.plan, before, k, t.copies[k])
    ensures Effect(t.plan, ttl, before, after)
  {
    var m := t.made.value;
    var k :| Single(t.copies, k)
             && m == t.copies[k].(id := m.id, tokenHash := m.tokenHash, revokedAt := None, createdAt := t.plan.now);
    assert CopyOrRevoked(t.plan, before, k, t.copies[k]);
    assert after == AfterRotation(before, k, m.id, m.tokenHash, t.plan.now);
    assert Rotates(t.plan, before, after, k, m.id, m.tokenHash);
  }

  lemma RevocationEffect(t: Tx, ttl: Duration, before: map<Id, TokenRow>, after: map<Id, TokenRow>)
    requires WrittenBy(t, before, after) && (t.plan.RevokeOne? || t.plan.RevokeMany?) && t.made.None?
    requires forall k :: k in t.copies <==> Chosen(t.plan, before, k)
    ensures Effect(t.plan, ttl, before, after)
  {
    assert after.Keys == before.Keys;
  }

  lemma AloneCommits(s: System, s': System, tx: nat, p: Plan)
    requires AloneInv(s, s', tx, p) && SystemInv(s) && Enabled(s', Commit(tx))
    ensures Effect(p, s.ttl, s.tokens, Next(s', Commit(tx)).tokens)
  {
    AloneWritten(s, s', tx, p);
    var t, after := s'.txs[tx], AllWritten(s.tokens, s'.txs[tx].written);
    match p
    case Issue(_, _, _, _) => assert AddsSession(p, s.ttl, s.tokens, after, t.made.value.id, t.made.value.tokenHash);
    case Refresh(_, _) => RefreshEffect(t, s.ttl, s.tokens, after);
    case _ =>
      forall k ensures k in t.copies <==> Chosen(p, s.tokens, k) {
        if k in t.copies { assert CopyOrRevoked(p, s.tokens, k, t.copies[k]); }
      }
      RevocationEffect(t, s.ttl, s.tokens, after);
  }

  lemma {:induction false} AloneRun(s: System, actions: seq<Action>, tx: nat, p: Plan)
    requires SystemInv(s) && s.txs == map[] && Schedule(s, actions) && Alone(actions, tx, p)
    ensures SystemInv(After(s, actions)) && AloneInv(s, After(s, actions), tx, p)
    decreases |actions|
  {
    var before := actions[..|actions| - 1];
    if before == [] {
      assert actions == [Begin(tx, p)];
      AloneBegins(s, tx, p);
      StepKeepsInv(s, Begin(tx, p));
    } else {
      AloneRun(s, before, tx, p);
      StepKeepsInv(After(s, before), actions[|actions| - 1]);
      AloneStep(s, After(s, before), tx, p, actions[|actions| - 1]);
    }
  }

  /** Any run of a transaction on its own, once it commits, has done to the tokens what its use case does: issued a
      session, rotated the presented token, or revoked exactly the active tokens it was to revoke. */
  lemma AloneIsUseCase(s: System, actions: seq<Action>, tx: nat, p: Plan)
    requires SystemInv(s) && s.txs == map[] && Schedule(s, actions) && Alone(actions, tx, p)
    requires Enabled(After(s, actions), Commit(tx))
    ensures Effect(p, s.ttl, s.tokens, Next(After(s, actions), Commit(tx)).tokens)
  {
    AloneRun(s, actions, tx, p);
    AloneCommits(s, After(s, actions), tx, p);
  }
}
