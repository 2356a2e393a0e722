/** What every use case works with: the storage over the five tables, and the sources of time, identifiers and
    tokens, given as oracles. */
module Environment {
  import opened Basics
  import opened Domain
  import opened TrustTree
  import opened Tables
  import opened Transactions
  import opened History

  /** Foreign keys are checked after every statement unless declared deferrable, and always at commit. */
  function SchemaRules(deferForeignKeys: bool): Rules<Tables> {
    Rules(t => deferForeignKeys || ForeignKeysHold(t), t => ForeignKeysHold(t))
  }

  /** Clock, identifier generator and token generator. `hash` is the keyed hash of raw tokens. */
  class Runtime {
    const clockAt: nat -> Time
    const idAt: nat -> Id
    const rawAt: nat -> string
    const hash: string -> string
    var ticks: nat
    var idsDrawn: nat
    var tokensDrawn: nat
    var failures: seq<bool>

    constructor (clockAt: nat -> Time, idAt: nat -> Id, rawAt: nat -> string, hash: string -> string,
                 failures: seq<bool>)
      ensures this.clockAt == clockAt && this.idAt == idAt && this.rawAt == rawAt && this.hash == hash
      ensures ticks == idsDrawn == tokensDrawn == 0 && this.failures == failures
    {
      this.clockAt, this.idAt, this.rawAt, this.hash := clockAt, idAt, rawAt, hash;
      this.ticks, this.idsDrawn, this.tokensDrawn, this.failures := 0, 0, 0, failures;
    }

    function HashAt(i: nat): string { hash(rawAt(i)) }

    /** The assumptions: the clock never runs back, no identifier or token hash is drawn twice. */
    ghost predicate Valid() {
      && (forall i, j :: i <= j ==> clockAt(i) <= clockAt(j))
      && (forall i :: idAt(i) != NIL)
      && (forall i, j :: idAt(i) == idAt(j) ==> i == j)
      && (forall i :: HashAt(i) != "")
      && (forall i, j :: HashAt(i) == HashAt(j) ==> i == j)
    }

    /** No identifier from the `ids`-th on and no token hash from the `tokens`-th on is stored. */
    ghost predicate Undrawn(ids: nat, tokens: nat, t: Tables) {
      && (forall i :: i >= ids ==>
            idAt(i) !in t.invites && idAt(i) !in t.credentials && idAt(i) !in t.tokens
            && (forall r :: r in t.keys ==> r.id != idAt(i)))
      && (forall i :: i >= tokens ==> !HashTaken(t.tokens, HashAt(i)) && !CodeTaken(t.invites, HashAt(i)))
    }

    /** Nothing still to be drawn is stored. */
    ghost predicate Fresh(t: Tables)
      reads this
    {
      Undrawn(idsDrawn, tokensDrawn, t)
    }

    /** Drawing more leaves less to be drawn. */
    lemma DrawnSince(ids: nat, tokens: nat, idsNow: nat, tokensNow: nat, t: Tables)
      requires Undrawn(ids, tokens, t) && ids <= idsNow && tokens <= tokensNow
      ensures Undrawn(idsNow, tokensNow, t)
    {
    }

    lemma SessionStored(ids: nat, tokens: nat, t: Tables, row: TokenRow)
      requires Valid() && Undrawn(ids, tokens, t) && row.id == idAt(ids) && row.tokenHash == HashAt(tokens)
      ensures Undrawn(ids + 1, tokens + 1, t.(tokens := t.tokens[row.id := row]))
    {
    }

    lemma RotationStored(ids: nat, tokens: nat, t: Tables, spent: TokenRow, row: TokenRow)
      requires Valid() && Undrawn(ids, tokens, t) && row.id == idAt(ids) && row.tokenHash == HashAt(tokens)
      requires spent.id in t.tokens && spent.tokenHash == t.tokens[spent.id].tokenHash
      ensures Undrawn(ids + 1, tokens + 1, t.(tokens := t.tokens[spent.id := spent][row.id := row]))
    {
      assert Undrawn(ids, tokens, t.(tokens := t.tokens[spent.id := spent]));
    }

    /** Rewriting stored rows without touching ids or hashes keeps what is still to be drawn unstored. */
    lemma SameHashesStored(ids: nat, tokens: nat, t: Tables, after: map<Id, TokenRow>)
      requires Undrawn(ids, tokens, t) && after.Keys == t.tokens.Keys
      requires forall k :: k in after ==> after[k].tokenHash == t.tokens[k].tokenHash
      ensures Undrawn(ids, tokens, t.(tokens := after))
    {
      forall h | HashTaken(after, h) ensures HashTaken(t.tokens, h) {
        var k :| k in after && after[k].tokenHash == h;
        assert t.tokens[k].tokenHash == h;
      }
    }

    lemma UserStored(ids: nat, tokens: nat, t: Tables, users: seq<User>)
      requires Undrawn(ids, tokens, t)
      ensures Undrawn(ids, tokens, t.(users := users))
    {
    }

    lemma CredentialStored(ids: nat, tokens: nat, t: Tables, row: CredentialRow)
      requires Valid() && Undrawn(ids, tokens, t) && row.id == idAt(ids)
      ensures Undrawn(ids + 1, tokens, t.(credentials := t.credentials[row.id := row]))
    {
    }

    lemma CredentialUpdated(ids: nat, tokens: nat, t: Tables, row: CredentialRow)
      requires Undrawn(ids, tokens, t) && row.id in t.credentials
      ensures Undrawn(ids, tokens, t.(credentials := t.credentials[row.id := row]))
    {
    }

    lemma KeysStored(ids: nat, tokens: nat, t: Tables, rows: seq<WrappedKeyRow>)
      requires Valid() && Undrawn(ids, tokens, t)
      requires forall i :: 0 <= i < |rows| ==> rows[i].id == idAt(ids + i)
      ensures Undrawn(ids + |rows|, tokens, t.(keys := t.keys + rows))
    {
      forall i, r | i >= ids + |rows| && r in t.keys + rows ensures r.id != idAt(i) {
        if r !in t.keys {
          var j :| 0 <= j < |rows| && rows[j] == r;
          assert rows[j].id == idAt(ids + j);
        }
      }
    }

    lemma InviteRedeemed(ids: nat, tokens: nat, t: Tables, row: InviteRow)
      requires Undrawn(ids, tokens, t) && row.id in t.invites && row.codeHash == t.invites[row.id].codeHash
      ensures Undrawn(ids, tokens, t.(invites := t.invites[row.id := row]))
    {
      var after := t.invites[row.id := row];
      forall h | CodeTaken(after, h) ensures CodeTaken(t.invites, h) {
        var k :| k in after && after[k].codeHash == h;
        assert t.invites[k].codeHash == h;
      }
    }

    lemma InviteStored(ids: nat, tokens: nat, t: Tables, row: InviteRow)
      requires Valid() && Undrawn(ids, tokens, t) && row.id == idAt(ids) && row.codeHash == HashAt(tokens)
      ensures Undrawn(ids + 1, tokens + 1, t.(invites := t.invites[row.id := row]))
    {
    }

    predicate Faultless()
      reads this
    {
      true !in failures
    }

    method Now() returns (now: Time)
      modifies this`ticks
      ensures now == clockAt(old(ticks)) && ticks == old(ticks) + 1
    {
      now, ticks := clockAt(ticks), ticks + 1;
    }

    method NewID() returns (id: Id)
      modifies this`idsDrawn
      ensures id == idAt(old(idsDrawn)) && idsDrawn == old(idsDrawn) + 1
    {
      id, idsDrawn := idAt(idsDrawn), idsDrawn + 1;
    }

    method Failure() returns (failed: bool)
      modifies this`failures
      ensures old(Faultless()) ==> !failed && Faultless()
    {
      if failures == [] {
        return false;
      }
      failed, failures := failures[0], failures[1..];
    }

    method GenerateToken() returns (token: Result<(string, string), Error>)
      modifies this`tokensDrawn, this`failures
      ensures old(Faultless()) ==> token.Ok? && Faultless()
      ensures tokensDrawn == old(tokensDrawn) + (if token.Ok? then 1 else 0)
      ensures token.Ok? ==> token.value == (rawAt(old(tokensDrawn)), HashAt(old(tokensDrawn)))
      ensures token.Err? ==> token.error == Infrastructure
    {
      var failed := Failure();
      if failed {
        return Err(Infrastructure);
      }
      token := Ok((rawAt(tokensDrawn), HashAt(tokensDrawn)));
      tokensDrawn := tokensDrawn + 1;
    }
  }

  datatype Env = Env(cfg: Config, db: Storage<Tables>, rt: Runtime) {
    function View(): Tables
      reads db
    {
      db.Conn().View()
    }

    ghost predicate Sound()
      reads db, rt
    {
      && db.rules == SchemaRules(cfg.deferForeignKeys)
      && rt.Valid() && rt.Fresh(View())
    }

    /** No request to the database or to a generator is going to fail. */
    predicate Calm()
      reads db, rt
    {
      db.Conn().Faultless() && rt.Faultless() && db.Conn().Ready()
    }
  }

  /** What a call leaves of the connection it was given: inside a transaction nothing is committed; outside,
      a failed call commits nothing. */
  predicate Kept(before: Connection<Tables>, after: Connection<Tables>, ok: bool) {
    && (before.tx.Some? <==> after.tx.Some?)
    && (before.tx.Some? || !ok ==> after.committed == before.committed)
    && (ok && before.Ready() ==> after.Ready())
    && (before.Faultless() ==> after.Faultless())
  }

  function IdSet(ids: seq<Id>): set<Id> { set id | id in ids }

  /** The batch of upserts, in order. */
  function UpsertTokens(t: Tables, rows: seq<TokenRow>): Option<Tables> {
    if rows == [] then Some(t)
    else
      match UpsertTokens(t, rows[..|rows| - 1])
      case None => None
      case Some(before) => UpsertToken(before, rows[|rows| - 1])
  }

  predicate Updates(rows: seq<TokenRow>, k: Id) {
    exists r :: r in rows && r.id == k
  }

  /** Saving revoked copies of stored tokens sets their `revoked_at` and changes nothing else. */
  lemma {:induction false} RowsUpdateInPlace(t: Tables, rows: seq<TokenRow>, now: Time)
    requires forall r :: r in rows ==> r.id in t.tokens && r.revokedAt == Some(now)
    ensures UpsertTokens(t, rows).Some?
    ensures var after := UpsertTokens(t, rows).value;
            && after == t.(tokens := after.tokens) && after.tokens.Keys == t.tokens.Keys
            && forall k :: k in t.tokens ==>
                 after.tokens[k] == if Updates(rows, k) then t.tokens[k].(revokedAt := Some(now)) else t.tokens[k]
  {
    if rows != [] {
      var before := rows[..|rows| - 1];
      var last := rows[|rows| - 1];
      RowsUpdateInPlace(t, before, now);
      assert rows == before + [last];
      assert forall k :: Updates(rows, k) <==> Updates(before, k) || k == last.id;
    }
  }

  lemma {:induction false} UpsertPrefix(t: Tables, rows: seq<TokenRow>, i: nat)
    requires i <= |rows| && UpsertTokens(t, rows).Some?
    ensures UpsertTokens(t, rows[..i]).Some?
    decreases |rows|
  {
    if i == |rows| {
      assert rows[..i] == rows;
    } else {
      UpsertPrefix(t, rows[..|rows| - 1], i);
      assert rows[..|rows| - 1][..i] == rows[..i];
    }
  }

  lemma OwnedTokenKeepsForeignKeys(t: Tables, row: TokenRow)
    requires ForeignKeysHold(t) && Stored(t.users, row.userId) && UpsertToken(t, row).Some?
    ensures ForeignKeysHold(UpsertToken(t, row).value) && UpsertToken(t, row).value.users == t.users
  {
  }
}
