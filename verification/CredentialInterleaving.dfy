/** Logins with one credential, interleaved statement by statement. The lookup takes no lock and saving writes both the
    counter and `revoked_at`, so a login that read the row before a revocation and is accepted writes the revocation
    away when it commits, and one that was overtaken lowers the counter. Exactly when a revocation lasts and when the
    counter never falls is proved for every schedule. */
module CredentialInterleaving {
  import opened Basics
  import opened Domain
  import opened Tables
  import opened History
  import opened LoginSteps

  datatype Stage = Begun | HasRead(copy: CredentialRow) | HasSaved(copy: CredentialRow, row: CredentialRow)

  datatype Tx = Tx(auth: AuthenticationResult, now: Time, stage: Stage)

  /** The committed row of the credential and the logins under way. */
  datatype System = System(row: CredentialRow, txs: map<nat, Tx>)

  datatype Action =
    | Begin(tx: nat, auth: AuthenticationResult, now: Time)
    | Find(tx: nat)
    | Save(tx: nat)
    | Commit(tx: nat)
    | Abort(tx: nat)

  /** What a login makes of the row it read. */
  function Decided(t: Tx, row: CredentialRow): CredentialRow {
    if Suspected(row, t.auth) then SuspectedRow(row, t.auth, t.now) else row.(signCount := t.auth.newSignCount)
  }

  /** It is what the use case commits, in both cases in which it commits. */
  lemma DecidedAsByUseCase(cfg: Config, t: Tables, after: Tables, e: Event, auth: AuthenticationResult, device: string,
                           address: string, now: Time, sessionsNow: Time)
    requires LoginFits(cfg, t, after, e, auth, device, address, now) ||
             CloneFits(cfg, t, after, e, auth, now, sessionsNow)
    ensures e.credential in after.credentials
    ensures after.credentials[e.credential] == Decided(Tx(auth, now, Begun), t.credentials[e.credential])
  {
    assert e.LoggedIn? || e.CloneSuspected?;
    assert e.credential in t.credentials;
  }

  predicate NoneSaved(s: System, tx: nat) { forall i :: i in s.txs && i != tx ==> !s.txs[i].stage.HasSaved? }

  /** A row that was saved stays locked until its transaction ends; a revoked credential leaves only `Abort`. */
  predicate Enabled(s: System, a: Action) {
    match a
    case Begin(tx, auth, now) => tx !in s.txs
    case Find(tx) => tx in s.txs && s.txs[tx].stage.Begun? && s.row.revokedAt.None?
    case Save(tx) => tx in s.txs && s.txs[tx].stage.HasRead? && NoneSaved(s, tx)
    case Commit(tx) => tx in s.txs && s.txs[tx].stage.HasSaved?
    case Abort(tx) => tx in s.txs
  }

  function Staged(s: System, tx: nat, t: Tx): System { s.(txs := s.txs[tx := t]) }

  function Next(s: System, a: Action): System
    requires Enabled(s, a)
  {
    match a
    case Begin(tx, auth, now) => Staged(s, tx, Tx(auth, now, Begun))
    case Find(tx) => Staged(s, tx, s.txs[tx].(stage := HasRead(s.row)))
    case Save(tx) =>
      var copy := s.txs[tx].stage.copy;
      Staged(s, tx, s.txs[tx].(stage := HasSaved(copy, Decided(s.txs[tx], copy))))
    case Commit(tx) =>
      var row := s.txs[tx].stage.row;
      s.(row := s.row.(signCount := row.signCount, revokedAt := row.revokedAt), txs := s.txs - {tx})
    case Abort(tx) => s.(txs := s.txs - {tx})
  }

  ghost predicate Schedule(start: System, actions: seq<Action>)
    decreases |actions|, 0
  {
    actions == []
    || (Schedule(start, actions[..|actions| - 1])
        && Enabled(After(start, actions[..|actions| - 1]), actions[|actions| - 1]))
  }

  ghost function After(start: System, actions: seq<Action>): System
    requires Schedule(start, actions)
    decreases |actions|, 1
  {
    if actions == [] then start else Next(After(start, actions[..|actions| - 1]), actions[|actions| - 1])
  }

  // ---- how long a revocation lasts ----

  /** The credential is revoked at every moment of the schedule. */
  ghost predicate StaysRevoked(start: System, actions: seq<Action>)
    requires Schedule(start, actions)
    decreases |actions|
  {
    After(start, actions).row.revokedAt.Some?
    && (actions != [] ==> StaysRevoked(start, actions[..|actions| - 1]))
  }

  predicate HadRead(s: System, tx: nat) { tx in s.txs && !s.txs[tx].stage.Begun? }

  /** A login that had read the row at `start` is about to be committed as accepted. */
  predicate StaleAcceptance(start: System, s: System, tx: nat) {
    HadRead(start, tx) && tx in s.txs && s.txs[tx].stage.HasSaved? && s.txs[tx].stage.row.revokedAt.None?
  }

  ghost predicate NoStaleAcceptance(start: System, actions: seq<Action>)
    requires Schedule(start, actions)
    decreases |actions|
  {
    actions == []
    || (NoStaleAcceptance(start, actions[..|actions| - 1])
        && var last := actions[|actions| - 1];
           (last.Commit? ==> !StaleAcceptance(start, After(start, actions[..|actions| - 1]), last.tx)))
  }

  /** While the row is revoked no login gets past the lookup. */
  lemma {:induction false} OnlyEarlierReaders(start: System, actions: seq<Action>, tx: nat)
    requires Schedule(start, actions) && StaysRevoked(start, actions) && HadRead(After(start, actions), tx)
    ensures HadRead(start, tx)
    decreases |actions|
  {
    if actions != [] {
      var before := actions[..|actions| - 1];
      assert StaysRevoked(start, before);
      RevokedNow(start, before);
      assert HadRead(After(start, before), tx);
      OnlyEarlierReaders(start, before, tx);
    }
  }

  lemma RevokedNow(start: System, actions: seq<Action>)
    requires Schedule(start, actions) && StaysRevoked(start, actions)
    ensures After(start, actions).row.revokedAt.Some?
  {
  }

  /** A revocation lasts through a schedule exactly if no login that had read the row before is committed as
      accepted. */
  lemma {:induction false} RevocationLastsExactly(start: System, actions: seq<Action>)
    requires Schedule(start, actions) && start.row.revokedAt.Some?
    ensures StaysRevoked(start, actions) <==> NoStaleAcceptance(start, actions)
    decreases |actions|
  {
    if actions != [] {
      var before, last := actions[..|actions| - 1], actions[|actions| - 1];
      RevocationLastsExactly(start, before);
      if StaysRevoked(start, before) {
        RevokedNow(start, before);
        if last.Commit? { OnlyEarlierReaders(start, before, last.tx); }
      }
    }
  }

  // ---- when the counter never falls ----

  ghost predicate Decisive(s: System) {
    forall i :: i in s.txs && s.txs[i].stage.HasSaved? ==> s.txs[i].stage.row == Decided(s.txs[i], s.txs[i].stage.copy)
  }

  lemma {:induction false} SavedAsDecided(start: System, actions: seq<Action>)
    requires Schedule(start, actions) && start.txs == map[]
    ensures Decisive(After(start, actions))
    decreases |actions|
  {
    if actions != [] { SavedAsDecided(start, actions[..|actions| - 1]); }
  }

  /** Since `tx` last read the row, another login committed a counter above `counter`. */
  ghost predicate OvertakenSince(start: System, actions: seq<Action>, tx: nat, counter: int)
    requires Schedule(start, actions)
    decreases |actions|
  {
    && actions != [] && actions[|actions| - 1] != Find(tx)
    && ((actions[|actions| - 1].Commit? && After(start, actions).row.signCount as int > counter)
        || OvertakenSince(start, actions[..|actions| - 1], tx, counter))
  }

  /** The stored counter is never lowered by a step of the schedule. */
  ghost predicate NeverFalls(start: System, actions: seq<Action>)
    requires Schedule(start, actions)
    decreases |actions|
  {
    actions == []
    || (NeverFalls(start, actions[..|actions| - 1])
        && After(start, actions[..|actions| - 1]).row.signCount <= After(start, actions).row.signCount)
  }

  /** The row a login has read, if it has. */
  function Read(s: System, tx: nat): Option<CredentialRow> {
    if tx !in s.txs || s.txs[tx].stage.Begun? then None else Some(s.txs[tx].stage.copy)
  }

  /** While the counter only rises, it is above one not below that read exactly if a later commit brought it there. */
  lemma {:induction false} OvertakenExactly(start: System, actions: seq<Action>, tx: nat, counter: int)
    requires Schedule(start, actions) && start.txs == map[] && NeverFalls(start, actions)
    requires Read(After(start, actions), tx).Some?
    requires Read(After(start, actions), tx).value.signCount as int <= counter
    ensures OvertakenSince(start, actions, tx, counter) <==> After(start, actions).row.signCount as int > counter
    decreases |actions|
  {
    var front, last := actions[..|actions| - 1], actions[|actions| - 1];
    if last != Find(tx) {
      assert Read(After(start, front), tx) == Read(After(start, actions), tx);
      OvertakenExactly(start, front, tx, counter);
    }
  }

  /** No login commits after others have brought the counter, since its lookup, above what `bar` allows its row. */
  ghost predicate NoneOvertaken(start: System, actions: seq<Action>, bar: CredentialRow -> int)
    requires Schedule(start, actions)
    decreases |actions|
  {
    actions == []
    || (NoneOvertaken(start, actions[..|actions| - 1], bar)
        && var front, last := actions[..|actions| - 1], actions[|actions| - 1];
           (last.Commit? ==> !OvertakenSince(start, front, last.tx, bar(After(start, front).txs[last.tx].stage.row))))
  }

  /** The counter never falls in a schedule exactly if no login commits after another, since its lookup, committed a
      higher one. */
  lemma {:induction false} CounterNeverFallsExactly(start: System, actions: seq<Action>)
    requires Schedule(start, actions) && start.txs == map[]
    ensures NeverFalls(start, actions) <==> NoneOvertaken(start, actions, SameCounter)
    decreases |actions|
  {
    if actions != [] {
      var front, last := actions[..|actions| - 1], actions[|actions| - 1];
      CounterNeverFallsExactly(start, front);
      if NeverFalls(start, front) && last.Commit? { OvertakenCommit(start, front, last.tx, SameCounter); }
    }
  }

  function SameCounter(row: CredentialRow): int { row.signCount as int }

  /** An accepted login needs the row to be below its counter still, or at zero; a suspected one may find its own. */
  function LowerCounter(row: CredentialRow): int {
    if row.revokedAt.Some? then row.signCount as int else if row.signCount == 0 then 0 else row.signCount as int - 1
  }

  lemma OvertakenCommit(start: System, actions: seq<Action>, tx: nat, bar: CredentialRow -> int)
    requires Schedule(start, actions) && start.txs == map[] && NeverFalls(start, actions)
    requires Enabled(After(start, actions), Commit(tx)) && (bar == SameCounter || bar == LowerCounter)
    ensures var row := After(start, actions).txs[tx].stage.row;
            OvertakenSince(start, actions, tx, bar(row)) <==> After(start, actions).row.signCount as int > bar(row)
  {
    var t := After(start, actions).txs[tx];
    SavedAsDecided(start, actions);
    assert t.stage.row == Decided(t, t.stage.copy);
    OvertakenExactly(start, actions, tx, bar(t.stage.row));
  }

  /** Every login that commits as accepted has a counter acceptable after the one it overwrites, and a suspected one
      does not lower it. */
  ghost predicate RuleKept(start: System, actions: seq<Action>)
    requires Schedule(start, actions)
    decreases |actions|
  {
    actions == []
    || (RuleKept(start, actions[..|actions| - 1])
        && var s, last := After(start, actions[..|actions| - 1]), actions[|actions| - 1];
           (last.Commit? ==>
              var row := s.txs[last.tx].stage.row;
              if row.revokedAt.None? then CounterAccepted(s.row.signCount, row.signCount)
              else s.row.signCount <= row.signCount))
  }

  lemma {:induction false} RuleKeptNeverFalls(start: System, actions: seq<Action>)
    requires Schedule(start, actions) && RuleKept(start, actions)
    ensures NeverFalls(start, actions)
    decreases |actions|
  {
    if actions != [] { RuleKeptNeverFalls(start, actions[..|actions| - 1]); }
  }

  /** The rule for signature counters holds between the logins committed in a schedule, in the order of their commits,
      exactly if no login commits after another, since its lookup, committed its counter or a higher one. */
  lemma {:induction false} RuleKeptExactly(start: System, actions: seq<Action>)
    requires Schedule(start, actions) && start.txs == map[]
    ensures RuleKept(start, actions) <==> NoneOvertaken(start, actions, LowerCounter)
    decreases |actions|
  {
    if actions != [] {
      var front, last := actions[..|actions| - 1], actions[|actions| - 1];
      RuleKeptExactly(start, front);
      if RuleKept(start, front) && last.Commit? {
        RuleKeptNeverFalls(start, front);
        OvertakenCommit(start, front, last.tx, LowerCounter);
      }
    }
  }

  // ---- schedules in which they do not ----

  const ROW := CredentialRow(1, "key", 2, "pub", 5, [], 0, None)
  const LOGIN := AuthenticationResult("key", 6, false)
  const CLONE := AuthenticationResult("key", 7, true)
  const LATER := AuthenticationResult("key", 7, false)
  const REVOKED := ROW.(signCount := 7, revokedAt := Some(1))

  /** A login has read the row, then the clone was suspected and the revocation committed. */
  const AFTER_CLONE := System(REVOKED, map[0 := Tx(LOGIN, 1, HasRead(ROW))])

  lemma Extend(start: System, xs: seq<Action>, a: Action)
    requires Schedule(start, xs) && Enabled(After(start, xs), a)
    ensures Schedule(start, xs + [a]) && After(start, xs + [a]) == Next(After(start, xs), a)
  {
    assert (xs + [a])[..|xs|] == xs;
  }

  /** Two logins have read the unrevoked row. */
  function BothRead(other: AuthenticationResult): System {
    System(ROW, map[0 := Tx(LOGIN, 1, HasRead(ROW)), 1 := Tx(other, 1, HasRead(ROW))])
  }

  lemma ReachBothRead(other: AuthenticationResult) returns (xs: seq<Action>)
    ensures Schedule(System(ROW, map[]), xs) && After(System(ROW, map[]), xs) == BothRead(other)
  {
    var start := System(ROW, map[]);
    Extend(start, [], Begin(0, LOGIN, 1));
    xs := [] + [Begin(0, LOGIN, 1)];
    assert After(start, xs) == System(ROW, map[0 := Tx(LOGIN, 1, Begun)]);
    Extend(start, xs, Begin(1, other, 1));
    xs := xs + [Begin(1, other, 1)];
    assert After(start, xs) == System(ROW, map[0 := Tx(LOGIN, 1, Begun), 1 := Tx(other, 1, Begun)]);
    Extend(start, xs, Find(0));
    xs := xs + [Find(0)];
    assert After(start, xs) == System(ROW, map[0 := Tx(LOGIN, 1, HasRead(ROW)), 1 := Tx(other, 1, Begun)]);
    Extend(start, xs, Find(1));
    xs := xs + [Find(1)];
    assert After(start, xs).txs == BothRead(other).txs;
  }

  lemma ReachAfterClone() returns (xs: seq<Action>)
    ensures Schedule(System(ROW, map[]), xs) && After(System(ROW, map[]), xs) == AFTER_CLONE
  {
    var start := System(ROW, map[]);
    xs := ReachBothRead(CLONE);
    Extend(start, xs, Save(1));
    xs := xs + [Save(1)];
    assert After(start, xs).txs[1].stage == HasSaved(ROW, REVOKED);
    Extend(start, xs, Commit(1));
    xs := xs + [Commit(1)];
    assert After(start, xs).txs == AFTER_CLONE.txs;
  }

  /** From there the login saves its copy and commits, and the credential is no longer revoked: `xs` leads from the
      idle row to the revocation and `ys` on to its end. */
  lemma StaleLoginClearsRevocation() returns (xs: seq<Action>, ys: seq<Action>)
    ensures var start := System(ROW, map[]);
            && Schedule(start, xs) && After(start, xs) == AFTER_CLONE && After(start, xs).row.revokedAt.Some?
            && xs <= ys && Schedule(start, ys) && After(start, ys).row.revokedAt.None?
    ensures Schedule(AFTER_CLONE, ys[|xs|..]) && !NoStaleAcceptance(AFTER_CLONE, ys[|xs|..])
  {
    var start := System(ROW, map[]);
    xs := ReachAfterClone();
    var login := [Save(0), Commit(0)];
    ys := xs + login;
    assert ys[|xs|..] == login && (xs + [Save(0)]) + [Commit(0)] == ys && ([] + [Save(0)]) + [Commit(0)] == login;
    SavedAndCommitted(start, xs);
    SavedAndCommitted(AFTER_CLONE, []);
    RevocationLastsExactly(AFTER_CLONE, login);
  }

  lemma SavedAndCommitted(start: System, xs: seq<Action>)
    requires Schedule(start, xs) && After(start, xs) == AFTER_CLONE
    ensures Schedule(start, (xs + [Save(0)]) + [Commit(0)])
    ensures After(start, (xs + [Save(0)]) + [Commit(0)]).row.revokedAt.None?
  {
    Extend(start, xs, Save(0));
    assert After(start, xs + [Save(0)]).txs[0].stage == HasSaved(ROW, ROW.(signCount := 6));
    Extend(start, xs + [Save(0)], Commit(0));
  }

  /** Two accepted logins read one row, and the one with the lower counter commits last. */
  lemma OvertakenLoginLowersCounter() returns (xs: seq<Action>)
    ensures Schedule(System(ROW, map[]), xs)
    ensures !NeverFalls(System(ROW, map[]), xs) && !RuleKept(System(ROW, map[]), xs)
  {
    var start := System(ROW, map[]);
    xs := ReachOvertaken();
    Extend(start, xs, Commit(0));
    assert (xs + [Commit(0)])[..|xs|] == xs;
    xs := xs + [Commit(0)];
    if RuleKept(start, xs) { RuleKeptNeverFalls(start, xs); }
  }

  lemma ReachOvertaken() returns (xs: seq<Action>)
    ensures Schedule(System(ROW, map[]), xs)
    ensures var s := After(System(ROW, map[]), xs);
            Enabled(s, Commit(0)) && s.txs[0].stage.row.signCount == 6 && s.row.signCount == 7
  {
    var start := System(ROW, map[]);
    xs := ReachBothRead(LATER);
    Extend(start, xs, Save(1));
    xs := xs + [Save(1)];
    assert After(start, xs).txs[1].stage == HasSaved(ROW, ROW.(signCount := 7));
    Extend(start, xs, Commit(1));
    xs := xs + [Commit(1)];
    Extend(start, xs, Save(0));
    xs := xs + [Save(0)];
  }
}
