/** What the row locks and the unique index on token hashes give the interleaved transactions of TokenInterleaving: in
    every schedule no row has two writers and no hash is stored twice. */
module TokenIndexes {
  import opened Basics
  import opened Domain
  import opened Tables
  import opened TokenInterleaving

  ghost predicate HashesUnique(tokens: map<Id, TokenRow>) {
    forall k, l :: k in tokens && l in tokens && k != l ==> tokens[k].tokenHash != tokens[l].tokenHash
  }

  /** `r` is an uncommitted write of a row that is not stored yet. */
  predicate Inserts(s: System, tx: nat, r: TokenRow) { tx in s.txs && r in s.txs[tx].written && r.id !in s.tokens }

  ghost predicate OneWriterEach(s: System) {
    forall i, j, k :: i in s.txs && j in s.txs && i != j && WritesId(s.txs[i], k) ==> !WritesId(s.txs[j], k)
  }

  ghost predicate IndexInv(s: System) {
    && HashesUnique(s.tokens) && OneWriterEach(s)
    && (forall i, r :: Inserts(s, i, r) ==> !HashTaken(s.tokens, r.tokenHash))
    && (forall i, j, r, q :: Inserts(s, i, r) && Inserts(s, j, q) && i != j ==> r.tokenHash != q.tokenHash)
  }

  lemma UpsertKeepsIndexes(s: System, tx: nat)
    requires IndexInv(s) && Enabled(s, Upsert(tx))
    ensures IndexInv(Next(s, Upsert(tx)))
  {
    var after, row := Next(s, Upsert(tx)), s.txs[tx].pending[0];
    forall i, r | Inserts(after, i, r) ensures Inserts(s, i, r) || (i == tx && r == row) {
    }
    forall i, j, k | i in after.txs && j in after.txs && i != j && WritesId(after.txs[i], k)
      ensures !WritesId(after.txs[j], k)
    {
      assert i != tx && WritesId(after.txs[i], k) ==> WritesId(s.txs[i], k);
      assert WritesId(after.txs[tx], k) ==> WritesId(s.txs[tx], k) || k == row.id;
    }
    forall i, j, r, q | Inserts(after, i, r) && Inserts(after, j, q) && i != j ensures r.tokenHash != q.tokenHash {
      if !Inserts(s, i, r) {
        assert j != tx && WritesHash(s.txs[j], q.tokenHash);
      } else if !Inserts(s, j, q) {
        assert i != tx && WritesHash(s.txs[i], r.tokenHash);
      }
    }
  }

  /** A commit stores at most one new row, which it inserted before. */
  lemma CommitInserts(s: System, tx: nat)
    requires SystemInv(s) && Enabled(s, Commit(tx))
    ensures var after := Next(s, Commit(tx)).tokens;
            forall k :: k in after && k !in s.tokens ==> Inserts(s, tx, after[k]) && s.txs[tx].made == Some(after[k])
  {
    var t := s.txs[tx];
    assert TxInv(s, t) && t.written + t.pending == t.written;
    forall r | r in t.written ensures MayWrite(s, t, r) { assert r in t.written + t.pending; }
    BatchEffect(s.tokens, t.written);
    CommitEffect(s, tx);
  }

  lemma CommitKeepsIndexes(s: System, tx: nat)
    requires SystemInv(s) && IndexInv(s) && Enabled(s, Commit(tx))
    ensures IndexInv(Next(s, Commit(tx)))
  {
    var after := Next(s, Commit(tx));
    CommitInserts(s, tx);
    CommitEffect(s, tx);
    forall k | k in s.tokens ensures k in after.tokens && after.tokens[k].tokenHash == s.tokens[k].tokenHash {
      assert SameToken(s.tokens[k], after.tokens[k]);
    }
    forall k, l | k in after.tokens && l in after.tokens && k != l
      ensures after.tokens[k].tokenHash != after.tokens[l].tokenHash
    {
      var a, b := after.tokens[k], after.tokens[l];
      if k !in s.tokens && l in s.tokens {
        assert s.tokens[l].tokenHash == a.tokenHash ==> HashTaken(s.tokens, a.tokenHash);
      } else if k in s.tokens && l !in s.tokens {
        assert s.tokens[k].tokenHash == b.tokenHash ==> HashTaken(s.tokens, b.tokenHash);
      }
    }
    forall i, r | Inserts(after, i, r) ensures !HashTaken(after.tokens, r.tokenHash) {
      assert Inserts(s, i, r);
      forall k | k in after.tokens ensures after.tokens[k].tokenHash != r.tokenHash {
        if k in s.tokens {
          assert after.tokens[k].tokenHash == s.tokens[k].tokenHash;
        } else {
          assert Inserts(s, tx, after.tokens[k]);
        }
      }
    }
    assert forall i, r :: Inserts(after, i, r) ==> Inserts(s, i, r);
  }

  /** A step that writes nothing new. */
  lemma QuietStep(s: System, after: System)
    requires IndexInv(s) && after.tokens == s.tokens
    requires forall i, r :: i in after.txs && r in after.txs[i].written ==> i in s.txs && r in s.txs[i].written
    ensures IndexInv(after)
  {
    assert forall i, r :: Inserts(after, i, r) ==> Inserts(s, i, r);
    forall i, k | i in after.txs && WritesId(after.txs[i], k) ensures i in s.txs && WritesId(s.txs[i], k) {
      var r :| r in after.txs[i].written && r.id == k;
      assert r in s.txs[i].written;
    }
  }

  lemma StepKeepsIndexes(s: System, a: Action)
    requires SystemInv(s) && IndexInv(s) && Enabled(s, a)
    ensures IndexInv(Next(s, a))
  {
    match a
    case Upsert(tx) => UpsertKeepsIndexes(s, tx);
    case Commit(tx) => CommitKeepsIndexes(s, tx);
    case _ =>
      QuietStep(s, Next(s, a));
  }

  lemma {:induction false} ScheduleKeepsIndexes(start: System, actions: seq<Action>)
    requires Start(start) && Schedule(start, actions)
    ensures IndexInv(After(start, actions))
    decreases |actions|
  {
    if actions != [] {
      var before := actions[..|actions| - 1];
      ScheduleKeepsIndexes(start, before);
      ScheduleKeepsInv(start, before);
      StepKeepsIndexes(After(start, before), actions[|actions| - 1]);
    }
  }

  /** In every schedule no two stored tokens have one hash, and no two open transactions write one row. */
  lemma IndexesHoldInEverySchedule(start: System, actions: seq<Action>)
    requires Start(start) && Schedule(start, actions)
    ensures var s := After(start, actions);
            && (forall k, l ::
                  k in s.tokens && l in s.tokens && k != l ==> s.tokens[k].tokenHash != s.tokens[l].tokenHash)
            && forall i, j, r, q ::
                 i in s.txs && j in s.txs && i != j && r in s.txs[i].written && q in s.txs[j].written ==> r.id != q.id
  {
    ScheduleKeepsIndexes(start, actions);
    var s := After(start, actions);
    forall i, j, r, q | i in s.txs && j in s.txs && i != j && r in s.txs[i].written && q in s.txs[j].written
      ensures r.id != q.id
    {
      assert WritesId(s.txs[i], r.id) && WritesId(s.txs[j], q.id);
    }
  }
}
