/** The transactions that write refresh tokens, interleaved statement by statement. Lookups by hash and of active tokens
    take no lock (the one by id does, which only excludes some of the schedules below), so each transaction works
    on copies that may be stale by the time they are written. What survives that is stated for every schedule:
    a revocation is final, and rotating never lengthens a lineage's life. */
module TokenInterleaving {
  import opened Basics
  import opened Domain
  import opened Tables

  /** What a transaction is for. A refresh that meets a revoked token runs as `RevokeMany` on its owner and
      always aborts; a login issues a token, or on a suspected clone runs as `RevokeMany`. */
  datatype Plan =
    | Issue(user: Id, device: string, address: string, now: Time)
    | Refresh(hash: string, now: Time)
    | RevokeOne(token: Id, user: Id, now: Time)
    | RevokeMany(users: set<Id>, now: Time)

  datatype Stage = Begun | Found | Saving

  /** `copies` are the token objects read, `made` the one constructed; `pending` is what is left of the batch and
      `written` its executed statements. */
  datatype Tx = Tx(
    plan: Plan, stage: Stage, copies: map<Id, TokenRow>, made: Option<TokenRow>,
    pending: seq<TokenRow>, written: seq<TokenRow>)

  /** `first` remembers, for every id ever drawn, the token its lineage was issued with. */
  datatype System = System(ttl: Duration, tokens: map<Id, TokenRow>, first: map<Id, TokenRow>, txs: map<nat, Tx>)

  datatype Action =
    | Begin(tx: nat, plan: Plan)
    | Find(tx: nat)
    | Draw(tx: nat, id: Id, hash: string)
    | Revoke(tx: nat, token: Id)
    | StartSaving(tx: nat, batch: seq<TokenRow>)
    | Upsert(tx: nat)
    | Commit(tx: nat)
    | Abort(tx: nat)

  // ---- the steps ----

  predicate Selects(p: Plan, k: Id, row: TokenRow) {
    match p
    case Issue(_, _, _, _) => false
    case Refresh(hash, now) => row.tokenHash == hash && row.IsValid(now)
    case RevokeOne(token, user, now) => k == token && row.userId == user && !row.IsRevoked()
    case RevokeMany(users, now) => Active(row, users, now)
  }

  predicate Single(copies: map<Id, TokenRow>, k: Id) { k in copies && copies.Keys == {k} }

  /** A new session can be constructed at once, a successor when a token was read. */
  ghost predicate Drawable(t: Tx) {
    t.made.None? && ((t.plan.Issue? && t.stage.Begun?)
                     || (t.plan.Refresh? && t.stage.Found? && exists k :: Single(t.copies, k)))
  }

  /** The token a refresh read. */
  ghost function Presented(t: Tx): (k: Id)
    requires Drawable(t) && t.plan.Refresh?
    ensures Single(t.copies, k)
  {
    var k :| Single(t.copies, k);
    k
  }

  ghost function NewRow(ttl: Duration, t: Tx, id: Id, hash: string): TokenRow
    requires Drawable(t)
  {
    if t.plan.Issue? then
      TokenRow(id, t.plan.user, hash, t.plan.device, t.plan.address, t.plan.now + ttl, None, t.plan.now)
    else
      t.copies[Presented(t)].(id := id, tokenHash := hash, revokedAt := None, createdAt := t.plan.now)
  }

  /** The batch holds the objects of the transaction, each once and in any order. */
  ghost predicate Batch(t: Tx, batch: seq<TokenRow>) {
    && (forall i, j :: 0 <= i < j < |batch| ==> batch[i].id != batch[j].id)
    && (forall r :: r in batch <==> (r.id in t.copies && t.copies[r.id] == r) || t.made == Some(r))
  }

  /** `Revoke` was called on every token read, and the object to construct was constructed. */
  predicate ReadyToSave(t: Tx) {
    && (forall k :: k in t.copies ==> t.copies[k].IsRevoked())
    && (t.plan.Issue? ==> t.stage.Begun? && t.made.Some?)
    && (!t.plan.Issue? ==> t.stage.Found?)
    && (t.plan.Refresh? ==> t.made.Some?)
  }

  predicate WritesId(t: Tx, k: Id) { exists r :: r in t.written && r.id == k }
  predicate WritesHash(t: Tx, hash: string) { exists r :: r in t.written && r.tokenHash == hash }

  /** No other transaction has an uncommitted write of the row, nor of a row with its hash. */
  predicate Unlocked(s: System, tx: nat, row: TokenRow) {
    && (forall i :: i in s.txs && i != tx ==> !WritesId(s.txs[i], row.id))
    && (row.id in s.tokens
        || (!HashTaken(s.tokens, row.tokenHash)
            && forall i :: i in s.txs && i != tx ==> !WritesHash(s.txs[i], row.tokenHash)))
  }

  ghost predicate Enabled(s: System, a: Action) {
    match a
    case Begin(tx, plan) => tx !in s.txs
    case Find(tx) => tx in s.txs && s.txs[tx].stage.Begun? && !s.txs[tx].plan.Issue?
    case Draw(tx, id, hash) => tx in s.txs && Drawable(s.txs[tx]) && id !in s.first
    case Revoke(tx, k) =>
      && tx in s.txs && s.txs[tx].stage.Found? && k in s.txs[tx].copies && !s.txs[tx].copies[k].IsRevoked()
      && (s.txs[tx].plan.Refresh? ==> s.txs[tx].made.Some?)
    case StartSaving(tx, batch) => tx in s.txs && ReadyToSave(s.txs[tx]) && Batch(s.txs[tx], batch)
    case Upsert(tx) =>
      tx in s.txs && s.txs[tx].stage.Saving? && s.txs[tx].pending != [] && Unlocked(s, tx, s.txs[tx].pending[0])
    case Commit(tx) => tx in s.txs && s.txs[tx].stage.Saving? && s.txs[tx].pending == []
    case Abort(tx) => tx in s.txs
  }

  function Written(tokens: map<Id, TokenRow>, row: TokenRow): map<Id, TokenRow> {
    tokens[row.id := if row.id in tokens then tokens[row.id].(revokedAt := row.revokedAt) else row]
  }

  /** It is the upsert of the tables, which a taken hash would refuse. */
  lemma WrittenIsUpsert(t: Tables, row: TokenRow)
    requires UpsertToken(t, row).Some?
    ensures UpsertToken(t, row).value == t.(tokens := Written(t.tokens, row))
  {
  }

  function AllWritten(tokens: map<Id, TokenRow>, rows: seq<TokenRow>): map<Id, TokenRow>
    decreases |rows|
  {
    if rows == [] then tokens else AllWritten(Written(tokens, rows[0]), rows[1..])
  }

  function Staged(s: System, tx: nat, t: Tx): System { s.(txs := s.txs[tx := t]) }

  ghost function Next(s: System, a: Action): System
    requires Enabled(s, a)
  {
    match a
    case Begin(tx, plan) => Staged(s, tx, Tx(plan, Begun, map[], None, [], []))
    case Find(tx) =>
      var t := s.txs[tx];
      Staged(s, tx,
        t.(stage := Found, copies := map k | k in s.tokens && Selects(t.plan, k, s.tokens[k]) :: s.tokens[k]))
    case Draw(tx, id, hash) =>
      var row := NewRow(s.ttl, s.txs[tx], id, hash);
      Staged(s, tx, s.txs[tx].(made := Some(row))).(first := s.first[id := Lineage(s, s.txs[tx], row)])
    case Revoke(tx, k) =>
      var t := s.txs[tx];
      Staged(s, tx, t.(copies := t.copies[k := t.copies[k].(revokedAt := Some(t.plan.now))]))
    case StartSaving(tx, batch) => Staged(s, tx, s.txs[tx].(stage := Saving, pending := batch))
    case Upsert(tx) =>
      var t := s.txs[tx];
      Staged(s, tx, t.(pending := t.pending[1..], written := t.written + [t.pending[0]]))
    case Commit(tx) => s.(tokens := AllWritten(s.tokens, s.txs[tx].written), txs := s.txs - {tx})
    case Abort(tx) => s.(txs := s.txs - {tx})
  }

  /** The first token of the lineage a new row belongs to. */
  ghost function Lineage(s: System, t: Tx, row: TokenRow): TokenRow
    requires Drawable(t)
  {
    if t.plan.Issue? || Presented(t) !in s.first then row else s.first[Presented(t)]
  }

  ghost predicate Schedule(start: System, actions: seq<Action>)
    decreases |actions|, 0
  {
    actions == []
    || (Schedule(start, actions[..|actions| - 1])
        && Enabled(After(start, actions[..|actions| - 1]), actions[|actions| - 1]))
  }

  ghost function After(start: System, actions: seq<Action>): System
    requires Schedule(start, actions)
    decreases |actions|, 1
  {
    if actions == [] then start else Next(After(start, actions[..|actions| - 1]), actions[|actions| - 1])
  }

  predicate Start(s: System) { s.tokens == map[] && s.first == map[] && s.txs == map[] }

  // ---- the invariant ----

  /** The columns no statement changes. */
  predicate SameToken(a: TokenRow, b: TokenRow) { a.(revokedAt := None) == b.(revokedAt := None) }

  predicate SameLineage(first: TokenRow, row: TokenRow) {
    first.userId == row.userId && first.deviceInfo == row.deviceInfo && first.ipAddress == row.ipAddress
    && first.expiresAt == row.expiresAt
  }

  /** A drawn id whose token carries what its lineage was issued with. */
  predicate Known(s: System, row: TokenRow) {
    row.id in s.first && SameLineage(s.first[row.id], row)
    && s.first[row.id].expiresAt == s.first[row.id].createdAt + s.ttl
  }

  /** A row a transaction is going to write: an object read earlier and revoked since, or the new one. */
  predicate MayWrite(s: System, t: Tx, row: TokenRow) {
    if row.id in s.tokens then row.IsRevoked() && SameToken(row, s.tokens[row.id]) else t.made == Some(row)
  }

  predicate Fresh(s: System, t: Tx) {
    t.made.Some? ==> t.made.value.id !in s.tokens && t.made.value.revokedAt.None? && Known(s, t.made.value)
  }

  predicate CopyOf(tokens: map<Id, TokenRow>, k: Id, row: TokenRow) {
    k in tokens && SameToken(row, tokens[k])
  }

  predicate InBatch(t: Tx, row: TokenRow) { row in t.written + t.pending }

  predicate TxInv(s: System, t: Tx) {
    && Fresh(s, t)
    && (forall k :: k in t.copies ==> CopyOf(s.tokens, k, t.copies[k]))
    && (t.plan.Refresh? ==> forall k :: k in t.copies ==> t.plan.now < t.copies[k].expiresAt)
    && (t.stage.Saving? ==> forall r :: r in t.written + t.pending ==> MayWrite(s, t, r))
    && (t.stage.Saving? ==> forall k :: k in t.copies ==> t.copies[k].IsRevoked() && InBatch(t, t.copies[k]))
    && (forall i, j :: 0 <= i < j < |t.written + t.pending| ==>
         (t.written + t.pending)[i].id != (t.written + t.pending)[j].id)
    && (!t.stage.Saving? ==> t.written == [] && t.pending == [])
  }

  predicate Apart(t: Tx, o: Tx) { t.made.Some? && o.made.Some? ==> t.made.value.id != o.made.value.id }

  ghost predicate SystemInv(s: System) {
    && (forall k :: k in s.tokens ==> s.tokens[k].id == k && Known(s, s.tokens[k]))
    && (forall i :: i in s.txs ==> TxInv(s, s.txs[i]))
    && (forall i, j :: i in s.txs && j in s.txs && i != j ==> Apart(s.txs[i], s.txs[j]))
  }

  // ---- applying a batch ----

  /** Rows survive, no column but `revoked_at` changes, and a revocation stays. */
  predicate Final(before: map<Id, TokenRow>, after: map<Id, TokenRow>) {
    forall k :: k in before ==>
      k in after && SameToken(before[k], after[k]) && (before[k].IsRevoked() ==> after[k].IsRevoked())
  }

  predicate Distinct(rows: seq<TokenRow>) { forall i, j :: 0 <= i < j < |rows| ==> rows[i].id != rows[j].id }

  lemma {:induction false} RowUntouched(tokens: map<Id, TokenRow>, rows: seq<TokenRow>, k: Id)
    requires k in tokens && forall r :: r in rows ==> r.id != k
    ensures k in AllWritten(tokens, rows) && AllWritten(tokens, rows)[k] == tokens[k]
    decreases |rows|
  {
    if rows != [] { RowUntouched(Written(tokens, rows[0]), rows[1..], k); }
  }

  /** What a batch leaves of each row in it. */
  lemma {:induction false} RowWritten(tokens: map<Id, TokenRow>, rows: seq<TokenRow>, i: nat)
    requires Distinct(rows) && i < |rows|
    ensures rows[i].id in AllWritten(tokens, rows)
    ensures AllWritten(tokens, rows)[rows[i].id]
         == if rows[i].id in tokens then tokens[rows[i].id].(revokedAt := rows[i].revokedAt) else rows[i]
    decreases |rows|
  {
    if i == 0 {
      RowUntouched(Written(tokens, rows[0]), rows[1..], rows[0].id);
    } else {
      RowWritten(Written(tokens, rows[0]), rows[1..], i - 1);
    }
  }

  /** What executing a batch does: new ids are inserted, known ones revoked. */
  lemma {:induction false} BatchEffect(tokens: map<Id, TokenRow>, rows: seq<TokenRow>)
    requires Distinct(rows)
    requires forall r :: r in rows && r.id in tokens ==> r.IsRevoked()
    ensures Final(tokens, AllWritten(tokens, rows))
    ensures forall k :: k in AllWritten(tokens, rows) && k !in tokens ==>
              AllWritten(tokens, rows)[k] in rows && AllWritten(tokens, rows)[k].id == k
    ensures forall r :: r in rows ==>
              r.id in AllWritten(tokens, rows) && AllWritten(tokens, rows)[r.id].revokedAt == r.revokedAt
    decreases |rows|
  {
    if rows != [] {
      assert rows[0] in rows && Final(tokens, Written(tokens, rows[0]));
      BatchEffect(Written(tokens, rows[0]), rows[1..]);
      RowUntouched(Written(tokens, rows[0]), rows[1..], rows[0].id);
    }
  }

  // ---- steps that commit nothing ----

  predicate SameTokens(s: System, after: System) {
    && after.tokens == s.tokens && after.ttl == s.ttl
    && forall k :: k in s.first ==> k in after.first && after.first[k] == s.first[k]
  }

  lemma TxKept(s: System, after: System, t: Tx)
    requires SameTokens(s, after) && TxInv(s, t)
    ensures TxInv(after, t)
  {
    forall r | r in t.written + t.pending && t.stage.Saving? ensures MayWrite(after, t, r) { assert MayWrite(s, t, r); }
  }

  lemma StagingKeeps(s: System, after: System, tx: nat, t: Tx)
    requires SystemInv(s) && SameTokens(s, after) && after.txs == s.txs[tx := t]
    requires TxInv(after, t)
    requires forall i :: i in s.txs && i != tx ==> Apart(t, s.txs[i])
    ensures SystemInv(after)
  {
    forall i | i in after.txs ensures TxInv(after, after.txs[i]) {
      if i != tx { TxKept(s, after, s.txs[i]); }
    }
    forall i, j | i in after.txs && j in after.txs && i != j ensures Apart(after.txs[i], after.txs[j]) {
      if i != tx && j == tx { assert Apart(t, s.txs[i]); }
    }
    forall k | k in after.tokens ensures after.tokens[k].id == k && Known(after, after.tokens[k]) {
      assert Known(s, s.tokens[k]);
    }
  }

  lemma DrawKeeps(s: System, tx: nat, id: Id, hash: string)
    requires SystemInv(s) && Enabled(s, Draw(tx, id, hash))
    ensures SystemInv(Next(s, Draw(tx, id, hash)))
  {
    var t, after := s.txs[tx], Next(s, Draw(tx, id, hash));
    assert TxInv(s, t);
    if t.plan.Refresh? {
      assert CopyOf(s.tokens, Presented(t), t.copies[Presented(t)]);
      assert Known(s, s.tokens[Presented(t)]);
    }
    forall k | k in s.tokens ensures k in s.first { assert Known(s, s.tokens[k]); }
    forall i | i in s.txs && i != tx ensures Apart(after.txs[tx], s.txs[i]) { assert TxInv(s, s.txs[i]); }
    StagingKeeps(s, after, tx, after.txs[tx]);
  }

  lemma SavingKeeps(s: System, tx: nat, batch: seq<TokenRow>)
    requires SystemInv(s) && Enabled(s, StartSaving(tx, batch))
    ensures SystemInv(Next(s, StartSaving(tx, batch)))
  {
    var t, after := s.txs[tx], Next(s, StartSaving(tx, batch));
    assert TxInv(s, t);
    forall r | r in batch ensures MayWrite(s, t, r) {
      if r.id in t.copies && t.copies[r.id] == r { assert CopyOf(s.tokens, r.id, r); }
    }
    assert after.txs[tx].written + after.txs[tx].pending == batch;
    forall i | i in s.txs && i != tx ensures Apart(after.txs[tx], s.txs[i]) { assert Apart(t, s.txs[i]); }
    StagingKeeps(s, after, tx, after.txs[tx]);
  }

  lemma UpsertKeeps(s: System, tx: nat)
    requires SystemInv(s) && Enabled(s, Upsert(tx))
    ensures SystemInv(Next(s, Upsert(tx)))
  {
    var t, after := s.txs[tx], Next(s, Upsert(tx));
    assert TxInv(s, t);
    assert after.txs[tx].written + after.txs[tx].pending == t.written + t.pending;
    forall i | i in s.txs && i != tx ensures Apart(after.txs[tx], s.txs[i]) { assert Apart(t, s.txs[i]); }
    StagingKeeps(s, after, tx, after.txs[tx]);
  }

  lemma ReadingKeeps(s: System, a: Action)
    requires SystemInv(s) && Enabled(s, a) && (a.Begin? || a.Find? || a.Revoke?)
    ensures SystemInv(Next(s, a))
  {
    var after := Next(s, a);
    if a.tx in s.txs { assert TxInv(s, s.txs[a.tx]); }
    forall i | i in s.txs && i != a.tx ensures Apart(after.txs[a.tx], s.txs[i]) {
      if a.tx in s.txs { assert Apart(s.txs[a.tx], s.txs[i]); }
    }
    StagingKeeps(s, after, a.tx, after.txs[a.tx]);
  }

  // ---- commits ----

  lemma CommitEffect(s: System, tx: nat)
    requires SystemInv(s) && Enabled(s, Commit(tx))
    ensures var after := Next(s, Commit(tx)).tokens;
            Final(s.tokens, after)
            && (forall k :: k in after && k !in s.tokens ==> s.txs[tx].made == Some(after[k]) && after[k].id == k)
            && (forall k :: k in s.txs[tx].copies ==> k in after && after[k].IsRevoked())
  {
    var t := s.txs[tx];
    assert TxInv(s, t);
    assert t.written + t.pending == t.written;
    forall r | r in t.written ensures MayWrite(s, t, r) { assert r in t.written + t.pending; }
    BatchEffect(s.tokens, t.written);
    forall k | k in t.copies ensures t.copies[k] in t.written && t.copies[k].id == k {
      assert InBatch(t, t.copies[k]) && CopyOf(s.tokens, k, t.copies[k]);
      assert s.tokens[k].id == k;
    }
  }

  lemma CommitKeepsTx(s: System, tx: nat, i: nat)
    requires SystemInv(s) && Enabled(s, Commit(tx)) && i in s.txs && i != tx
    ensures TxInv(Next(s, Commit(tx)), s.txs[i])
  {
    var o, after := s.txs[i], Next(s, Commit(tx));
    CommitEffect(s, tx);
    assert Apart(s.txs[tx], o) && TxInv(s, o);
    forall r | r in o.written + o.pending && o.stage.Saving? ensures MayWrite(after, o, r) { assert MayWrite(s, o, r); }
    forall k | k in o.copies ensures CopyOf(after.tokens, k, o.copies[k]) { assert CopyOf(s.tokens, k, o.copies[k]); }
  }

  lemma CommitKeeps(s: System, tx: nat)
    requires SystemInv(s) && Enabled(s, Commit(tx))
    ensures SystemInv(Next(s, Commit(tx)))
  {
    var after := Next(s, Commit(tx));
    CommitEffect(s, tx);
    assert TxInv(s, s.txs[tx]);
    forall k | k in after.tokens ensures after.tokens[k].id == k && Known(after, after.tokens[k]) {
      if k in s.tokens { assert Known(s, s.tokens[k]) && SameToken(s.tokens[k], after.tokens[k]); }
    }
    forall i | i in s.txs && i != tx ensures TxInv(after, s.txs[i]) { CommitKeepsTx(s, tx, i); }
  }

  // ---- every schedule ----

  lemma AbortKeeps(s: System, tx: nat)
    requires SystemInv(s) && tx in s.txs
    ensures SystemInv(s.(txs := s.txs - {tx}))
  {
    var after := s.(txs := s.txs - {tx});
    forall i | i in after.txs ensures TxInv(after, after.txs[i]) { TxKept(s, after, s.txs[i]); }
    forall k | k in after.tokens ensures after.tokens[k].id == k && Known(after, after.tokens[k]) {
      assert Known(s, s.tokens[k]);
    }
  }

  lemma StepKeepsInv(s: System, a: Action)
    requires SystemInv(s) && Enabled(s, a)
    ensures SystemInv(Next(s, a)) && Final(s.tokens, Next(s, a).tokens)
  {
    match a
    case Draw(tx, id, hash) => DrawKeeps(s, tx, id, hash);
    case StartSaving(tx, batch) => SavingKeeps(s, tx, batch);
    case Upsert(tx) => UpsertKeeps(s, tx);
    case Commit(tx) => CommitKeeps(s, tx); CommitEffect(s, tx);
    case Abort(tx) => AbortKeeps(s, tx);
    case _ => ReadingKeeps(s, a);
  }

  lemma {:induction false} ScheduleKeepsInv(start: System, actions: seq<Action>)
    requires Start(start) && Schedule(start, actions)
    ensures SystemInv(After(start, actions))
    decreases |actions|
  {
    if actions != [] {
      ScheduleKeepsInv(start, actions[..|actions| - 1]);
      StepKeepsInv(After(start, actions[..|actions| - 1]), actions[|actions| - 1]);
    }
  }

  /** A committed revocation is final: whatever the transactions already under way have read, and however they
      go on to interleave, the row stays, stays revoked, and keeps its other columns. */
  lemma {:induction false} RevocationIsPermanent(start: System, actions: seq<Action>, n: nat)
    requires Start(start) && Schedule(start, actions) && n <= |actions|
    ensures Schedule(start, actions[..n])
    ensures Final(After(start, actions[..n]).tokens, After(start, actions).tokens)
    decreases |actions|
  {
    if n == |actions| {
      assert actions[..n] == actions;
    } else {
      var before := actions[..|actions| - 1];
      assert before[..n] == actions[..n];
      RevocationIsPermanent(start, before, n);
      ScheduleKeepsInv(start, before);
      StepKeepsInv(After(start, before), actions[|actions| - 1]);
    }
  }

  /** Whatever a transaction read to revoke is revoked in the tables once it commits, and from then on. */
  lemma CommittedRevocationsStay(start: System, actions: seq<Action>, n: nat, k: Id)
    requires Start(start) && Schedule(start, actions) && n < |actions| && actions[n].Commit?
    requires Schedule(start, actions[..n]) && actions[n].tx in After(start, actions[..n]).txs
    requires k in After(start, actions[..n]).txs[actions[n].tx].copies
    ensures k in After(start, actions).tokens && After(start, actions).tokens[k].IsRevoked()
  {
    var before, upTo := actions[..n], actions[..n + 1];
    assert upTo[..n] == before && upTo[n] == actions[n];
    RevocationIsPermanent(start, actions, n + 1);
    assert k in After(start, upTo).tokens && After(start, upTo).tokens[k].IsRevoked() by {
      ScheduleKeepsInv(start, before);
      CommitEffect(After(start, before), actions[n].tx);
    }
  }

  /** However often and in whatever interleaving a lineage is rotated, a token read as refreshable at `now` comes from a
      lineage issued less than `ttl` before, for the same user, device and address. */
  lemma RefreshWithinLifetime(start: System, actions: seq<Action>, tx: nat, id: Id, hash: string)
    requires Start(start) && Schedule(start, actions)
    requires Enabled(After(start, actions), Draw(tx, id, hash)) && After(start, actions).txs[tx].plan.Refresh?
    ensures var s := After(start, actions);
            var t := s.txs[tx];
            var k := Presented(t);
            && k in s.first && SameLineage(s.first[k], t.copies[k])
            && t.plan.now < s.first[k].createdAt + s.ttl
            && Next(s, Draw(tx, id, hash)).first[id] == s.first[k]
  {
    ScheduleKeepsInv(start, actions);
    var s := After(start, actions);
    var k := Presented(s.txs[tx]);
    assert TxInv(s, s.txs[tx]);
    assert CopyOf(s.tokens, k, s.txs[tx].copies[k]);
    assert Known(s, s.tokens[k]);
  }
}
