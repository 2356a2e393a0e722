/** What whole runs of the service keep: token lineages, signature counters, wrapped keys, and the effect of
    checking foreign keys immediately. Everything is read off the event log, so each statement holds
    for every run. */
module Runs {
  import opened Basics
  import opened Domain
  import opened TrustTree
  import opened Tables
  import opened History

  // ---- lineages of refresh tokens ----

  /** One issued token and its rotations, oldest first. */
  datatype Lineage = Lineage(issuedAt: Time, ids: seq<Id>)

  /** The lineages of a log, by the id of their newest token. */
  function Lineages(log: seq<Event>): map<Id, Lineage> {
    if log == [] then map[]
    else
      var m := Lineages(Before(log));
      match Last(log)
      case Registered(r) => m[r.session.id := Lineage(r.now, [r.session.id])]
      case LoggedIn(_, _, s, now) => m[s.id := Lineage(now, [s.id])]
      case Refreshed(spent, newId, _, _) =>
        if spent in m then (m - {spent})[newId := m[spent].(ids := m[spent].ids + [newId])] else m
      case _ => m
  }

  predicate SameSession(a: TokenRow, b: TokenRow) {
    a.userId == b.userId && a.deviceInfo == b.deviceInfo && a.ipAddress == b.ipAddress && a.expiresAt == b.expiresAt
  }

  predicate MemberHolds(tokens: map<Id, TokenRow>, l: Lineage, newest: Id, i: nat)
    requires newest in tokens && i < |l.ids|
  {
    && l.ids[i] in tokens && SameSession(tokens[l.ids[i]], tokens[newest])
    && (i < |l.ids| - 1 ==> tokens[l.ids[i]].IsRevoked())
  }

  /** Members share user, device, address and an expiry fixed by the issue; all but the newest are revoked. */
  predicate LineageHolds(cfg: Config, tokens: map<Id, TokenRow>, newest: Id, l: Lineage) {
    && l.ids != [] && l.ids[|l.ids| - 1] == newest && newest in tokens
    && tokens[newest].expiresAt == l.issuedAt + cfg.refreshTtl
    && forall i :: 0 <= i < |l.ids| ==> MemberHolds(tokens, l, newest, i)
  }

  predicate Member(m: map<Id, Lineage>, newest: Id, token: Id) {
    newest in m && token in m[newest].ids
  }

  predicate AllHold(cfg: Config, tokens: map<Id, TokenRow>, m: map<Id, Lineage>) {
    forall n :: n in m ==> LineageHolds(cfg, tokens, n, m[n])
  }

  ghost predicate Covered(m: map<Id, Lineage>, id: Id) {
    exists n :: Member(m, n, id)
  }

  ghost predicate Disjoint(m: map<Id, Lineage>) {
    forall n, o, id :: Member(m, n, id) && Member(m, o, id) ==> n == o
  }

  /** The lineages hold and partition the tokens. */
  ghost predicate LineagesHold(cfg: Config, tokens: map<Id, TokenRow>, m: map<Id, Lineage>) {
    AllHold(cfg, tokens, m) && (forall id {:trigger Covered(m, id)} :: id in tokens ==> Covered(m, id)) && Disjoint(m)
  }

  /** Tokens only get revoked: nothing else about a stored row changes, and no revocation is undone. */
  predicate OnlyRevokes(before: map<Id, TokenRow>, after: map<Id, TokenRow>) {
    && before.Keys == after.Keys
    && forall k :: k in before ==> SameSession(before[k], after[k]) && (before[k].IsRevoked() ==> after[k].IsRevoked())
  }

  lemma RevocationsKeepLineages(cfg: Config, before: map<Id, TokenRow>, after: map<Id, TokenRow>, m: map<Id, Lineage>)
    requires LineagesHold(cfg, before, m) && OnlyRevokes(before, after)
    ensures LineagesHold(cfg, after, m)
  {
    forall n | n in m ensures LineageHolds(cfg, after, n, m[n]) {
      forall id | id in m[n].ids ensures id in before { MemberStored(cfg, before, m, n, id); }
      LineageFramed(cfg, before, after, n, m[n]);
    }
  }

  lemma LineageFramed(cfg: Config, before: map<Id, TokenRow>, after: map<Id, TokenRow>, n: Id, l: Lineage)
    requires LineageHolds(cfg, before, n, l)
    requires forall id :: id in l.ids ==> id in after
    requires forall id :: id in l.ids && id in before ==>
               SameSession(before[id], after[id]) && (before[id].IsRevoked() ==> after[id].IsRevoked())
    ensures LineageHolds(cfg, after, n, l)
  {
    forall i | 0 <= i < |l.ids| ensures MemberHolds(after, l, n, i) { assert MemberHolds(before, l, n, i); }
  }

  lemma MemberStored(cfg: Config, tokens: map<Id, TokenRow>, m: map<Id, Lineage>, n: Id, id: Id)
    requires AllHold(cfg, tokens, m) && Member(m, n, id)
    ensures id in tokens
  {
    assert LineageHolds(cfg, tokens, n, m[n]);
    var i :| 0 <= i < |m[n].ids| && m[n].ids[i] == id;
    assert MemberHolds(tokens, m[n], n, i);
  }

  lemma IssueKeepsLineages(cfg: Config, before: map<Id, TokenRow>, m: map<Id, Lineage>, row: TokenRow, now: Time)
    requires LineagesHold(cfg, before, m) && row.id !in before && row.expiresAt == now + cfg.refreshTtl
    ensures LineagesHold(cfg, before[row.id := row], m[row.id := Lineage(now, [row.id])])
  {
    var after, m' := before[row.id := row], m[row.id := Lineage(now, [row.id])];
    forall n, id | Member(m, n, id) ensures n != row.id && id in before {
      MemberStored(cfg, before, m, n, id);
      assert LineageHolds(cfg, before, n, m[n]);
    }
    forall n | n in m' ensures LineageHolds(cfg, after, n, m'[n]) {
      if n == row.id {
        assert MemberHolds(after, m'[n], n, 0);
      } else {
        forall id | id in m[n].ids ensures id in before { assert Member(m, n, id); }
        LineageFramed(cfg, before, after, n, m[n]);
      }
    }
    forall id | id in after ensures Covered(m', id) {
      if id == row.id {
        assert Member(m', id, id);
      } else {
        assert Covered(m, id);
        var n :| Member(m, n, id);
        assert Member(m', n, id);
      }
    }
    forall n, o, id | Member(m', n, id) && Member(m', o, id) ensures n == o {
      if n != row.id { assert Member(m, n, id); }
      if o != row.id { assert Member(m, o, id); }
    }
  }

  /** A live token is the newest of its lineage. */
  lemma LiveIsNewest(cfg: Config, tokens: map<Id, TokenRow>, m: map<Id, Lineage>, id: Id)
    requires LineagesHold(cfg, tokens, m) && id in tokens && !tokens[id].IsRevoked()
    ensures id in m
  {
    assert Covered(m, id);
    var n :| Member(m, n, id);
    assert LineageHolds(cfg, tokens, n, m[n]);
    var i :| 0 <= i < |m[n].ids| && m[n].ids[i] == id;
    assert MemberHolds(tokens, m[n], n, i);
  }

  /** The lineage of a rotated token, and the tokens afterwards. */
  function Extended(l: Lineage, id: Id): Lineage { l.(ids := l.ids + [id]) }

  lemma ExtendedHolds(cfg: Config, before: map<Id, TokenRow>, spent: Id, l: Lineage, newId: Id, hash: string, now: Time)
    requires LineageHolds(cfg, before, spent, l) && newId !in before
    requires forall id :: id in l.ids ==> id in before
    ensures LineageHolds(cfg, AfterRotation(before, spent, newId, hash, now), newId, Extended(l, newId))
  {
    var after, l' := AfterRotation(before, spent, newId, hash, now), Extended(l, newId);
    forall i | 0 <= i < |l'.ids| ensures MemberHolds(after, l', newId, i) {
      if i < |l.ids| { assert MemberHolds(before, l, spent, i); }
    }
  }

  lemma RotationKeepsLineages(cfg: Config, before: map<Id, TokenRow>, m: map<Id, Lineage>, spent: Id, newId: Id,
                              hash: string, now: Time)
    requires LineagesHold(cfg, before, m) && spent in m && spent in before && newId !in before
    ensures LineagesHold(cfg, AfterRotation(before, spent, newId, hash, now),
                         (m - {spent})[newId := Extended(m[spent], newId)])
  {
    var after, m' := AfterRotation(before, spent, newId, hash, now), (m - {spent})[newId := Extended(m[spent], newId)];
    forall n, id | Member(m, n, id) ensures n != newId && id in before {
      MemberStored(cfg, before, m, n, id);
      assert LineageHolds(cfg, before, n, m[n]);
    }
    forall n | n in m' ensures LineageHolds(cfg, after, n, m'[n]) {
      var o := if n == newId then spent else n;
      assert LineageHolds(cfg, before, o, m[o]);
      forall id | id in m[o].ids ensures id in before { assert Member(m, o, id); }
      if n == newId { ExtendedHolds(cfg, before, spent, m[spent], newId, hash, now); }
      else { LineageFramed(cfg, before, after, n, m[n]); }
    }
    RotationPartitions(m, spent, newId);
    forall id | id in after ensures Covered(m', id) {
      if id != newId { assert Covered(m, id); }
    }
  }

  lemma RotationPartitions(m: map<Id, Lineage>, spent: Id, newId: Id)
    requires Disjoint(m) && spent in m && newId !in m && !Covered(m, newId)
    ensures var m' := (m - {spent})[newId := Extended(m[spent], newId)];
            Disjoint(m') && forall id :: Covered(m', id) <==> Covered(m, id) || id == newId
  {
    var m' := (m - {spent})[newId := Extended(m[spent], newId)];
    forall n, id ensures Member(m', n, id) <==>
        if n == newId then id == newId || Member(m, spent, id) else n != spent && Member(m, n, id) {
    }
    forall id ensures Covered(m', id) <==> Covered(m, id) || id == newId {
      assert Member(m', newId, newId);
      if Covered(m, id) {
        var n :| Member(m, n, id);
        assert Member(m', if n == spent then newId else n, id);
      }
      if Covered(m', id) && id != newId {
        var n :| Member(m', n, id);
        assert Member(m, if n == newId then spent else n, id);
      }
    }
  }

  /** The tokens of every run split into lineages. */
  lemma {:induction false} RunKeepsLineages(cfg: Config, log: seq<Event>)
    requires Run(cfg, log)
    ensures LineagesHold(cfg, State(cfg, log).tokens, Lineages(log))
    decreases |log|
  {
    if log != [] {
      RunKeepsInv(cfg, Before(log));
      RunKeepsLineages(cfg, Before(log));
      StepKeepsLineages(cfg, State(cfg, Before(log)), Lineages(Before(log)), log);
    }
  }

  lemma StepKeepsLineages(cfg: Config, t: Tables, m: map<Id, Lineage>, log: seq<Event>)
    requires log != [] && Possible(cfg, t, Last(log)) && m == Lineages(Before(log)) && LineagesHold(cfg, t.tokens, m)
    ensures LineagesHold(cfg, Apply(cfg, t, Last(log)).tokens, Lineages(log))
  {
    var after := Apply(cfg, t, Last(log)).tokens;
    match Last(log)
    case Registered(r) => IssueKeepsLineages(cfg, t.tokens, m, SessionRow(cfg, r.session, r.userId, r.now), r.now);
    case LoggedIn(c, _, s, now) =>
      IssueKeepsLineages(cfg, t.tokens, m, SessionRow(cfg, s, t.credentials[c].userId, now), now);
    case Refreshed(spent, newId, hash, now) =>
      LiveIsNewest(cfg, t.tokens, m, spent);
      RotationKeepsLineages(cfg, t.tokens, m, spent, newId, hash, now);
    case _ => RevocationsKeepLineages(cfg, t.tokens, after, m);
  }

  /** However often a lineage is rotated, it is never refreshed at or after its issue plus the lifetime. */
  lemma RefreshWithinLifetime(cfg: Config, log: seq<Event>)
    requires log != [] && Run(cfg, log) && Last(log).Refreshed?
    ensures var m := Lineages(Before(log)); var e := Last(log);
            e.spent in m && e.now < m[e.spent].issuedAt + cfg.refreshTtl
            && e.newId in Lineages(log) && Lineages(log)[e.newId].issuedAt == m[e.spent].issuedAt
  {
    var t, m, e := State(cfg, Before(log)), Lineages(Before(log)), Last(log);
    RunKeepsLineages(cfg, Before(log));
    LiveIsNewest(cfg, t.tokens, m, e.spent);
    assert LineageHolds(cfg, t.tokens, e.spent, m[e.spent]);
  }

  // ---- prefixes of runs ----

  lemma {:induction false} PrefixesRun(cfg: Config, log: seq<Event>, k: nat)
    requires Run(cfg, log) && k <= |log|
    ensures Run(cfg, log[..k])
    decreases |log|
  {
    if k == |log| {
      assert log[..k] == log;
    } else {
      PrefixesRun(cfg, Before(log), k);
      assert Before(log)[..k] == log[..k];
    }
  }

  lemma StepOfRun(cfg: Config, log: seq<Event>, k: nat)
    requires Run(cfg, log) && k < |log|
    ensures Run(cfg, log[..k]) && Run(cfg, log[..k + 1])
    ensures Possible(cfg, State(cfg, log[..k]), log[k])
    ensures State(cfg, log[..k + 1]) == Apply(cfg, State(cfg, log[..k]), log[k])
  {
    PrefixesRun(cfg, log, k);
    PrefixesRun(cfg, log, k + 1);
    assert Before(log[..k + 1]) == log[..k] && Last(log[..k + 1]) == log[k];
  }

  // ---- revocation is permanent, chain revocation is complete ----

  lemma StepKeepsToken(cfg: Config, t: Tables, e: Event, id: Id)
    requires Possible(cfg, t, e) && id in t.tokens
    ensures var after := Apply(cfg, t, e).tokens;
            id in after && SameSession(after[id], t.tokens[id]) && (t.tokens[id].IsRevoked() ==> after[id].IsRevoked())
  {
  }

  /** A stored token keeps its owner and expiry for ever, and once revoked it stays revoked. */
  lemma {:induction false} TokensPersist(cfg: Config, log: seq<Event>, k: nat, id: Id)
    requires Run(cfg, log) && k <= |log| && Run(cfg, log[..k]) && id in State(cfg, log[..k]).tokens
    ensures var before, after := State(cfg, log[..k]).tokens, State(cfg, log).tokens;
            id in after && SameSession(after[id], before[id]) && (before[id].IsRevoked() ==> after[id].IsRevoked())
    decreases |log|
  {
    if k == |log| {
      assert log[..k] == log;
    } else {
      assert Before(log)[..k] == log[..k];
      TokensPersist(cfg, Before(log), k, id);
      StepKeepsToken(cfg, State(cfg, Before(log)), Last(log), id);
    }
  }

  /** Once the sessions of a user's subtree are revoked at `now`, none of their tokens is valid then or
      later, however the run continues with the tokens that existed; all other rows are as before. */
  lemma ChainRevocationIsComplete(cfg: Config, log: seq<Event>, k: nat, user: Id, now: Time, id: Id, later: Time)
    requires Run(cfg, log) && k < |log| && later >= now && Run(cfg, log[..k])
    requires TrustInv(State(cfg, log[..k]).users, State(cfg, log[..k]).invites)
    requires log[k] == SessionsRevoked(Subtree(State(cfg, log[..k]).users, user), now)
    requires id in State(cfg, log[..k]).tokens
    ensures var t := State(cfg, log[..k]);
            if t.tokens[id].userId in Subtree(t.users, user)
            then id in State(cfg, log).tokens && !State(cfg, log).tokens[id].IsValid(later)
            else Run(cfg, log[..k + 1]) && id in State(cfg, log[..k + 1]).tokens
                 && State(cfg, log[..k + 1]).tokens[id] == t.tokens[id]
  {
    StepOfRun(cfg, log, k);
    TokensPersist(cfg, log, k + 1, id);
  }

  /** After a suspected clone none of the sessions its user had is valid from the reading of the clock on, however the
      run continues; the sessions of everyone else are as before. */
  lemma CloneRevocationIsComplete(cfg: Config, log: seq<Event>, k: nat, id: Id, later: Time)
    requires Run(cfg, log) && k < |log| && Run(cfg, log[..k])
    requires log[k].CloneSuspected? && log[k].credential in State(cfg, log[..k]).credentials
    requires later >= log[k].sessionsNow && id in State(cfg, log[..k]).tokens
    ensures var t := State(cfg, log[..k]);
            if t.tokens[id].userId == t.credentials[log[k].credential].userId
            then id in State(cfg, log).tokens && !State(cfg, log).tokens[id].IsValid(later)
            else Run(cfg, log[..k + 1]) && id in State(cfg, log[..k + 1]).tokens
                 && State(cfg, log[..k + 1]).tokens[id] == t.tokens[id]
  {
    StepOfRun(cfg, log, k);
    TokensPersist(cfg, log, k + 1, id);
  }

  // ---- signature counters ----

  /** The counter stored at registration and those of the accepted logins of one credential, in order. */
  function AcceptedCounters(log: seq<Event>, credential: Id): seq<uint32> {
    if log == [] then [] else AcceptedCounters(Before(log), credential) + CounterOf(Last(log), credential)
  }

  predicate ZerosUpTo(s: seq<uint32>, z: nat) {
    && z <= |s|
    && (forall i :: 0 <= i < z ==> s[i] == 0)
    && (forall i :: z <= i < |s| ==> s[i] > 0)
    && (forall i, j :: z <= i < j < |s| ==> s[i] < s[j])
  }

  /** A block of zeros followed by a strictly increasing sequence. */
  ghost predicate ZerosThenRising(s: seq<uint32>) {
    exists z :: 0 <= z <= |s| && ZerosUpTo(s, z)
  }

  ghost predicate CounterHolds(t: Tables, c: Id, counters: seq<uint32>) {
    if c in t.credentials then
      && counters != [] && ZerosThenRising(counters)
      && (t.credentials[c].revokedAt.None? ==> t.credentials[c].signCount == counters[|counters| - 1])
    else
      counters == []
  }

  lemma AcceptedCounterExtends(s: seq<uint32>, n: uint32)
    requires ZerosThenRising(s) && (s != [] ==> CounterAccepted(s[|s| - 1], n))
    ensures ZerosThenRising(s + [n])
  {
    var z :| 0 <= z <= |s| && ZerosUpTo(s, z);
    assert ZerosUpTo(s + [n], if n == 0 then z + 1 else z);
  }

  /** What an event adds to the accepted counters of a credential. */
  function CounterOf(e: Event, credential: Id): seq<uint32> {
    match e
    case Registered(r) => if r.credentialId == credential then [r.counter] else []
    case LoggedIn(c, n, _, _) => if c == credential then [n] else []
    case _ => []
  }

  /** An event that adds no counter to a credential leaves the stored one as it is, unless it revokes the credential. */
  lemma OtherStepsKeepCredential(cfg: Config, t: Tables, e: Event, c: Id)
    requires Possible(cfg, t, e) && CounterOf(e, c) == []
    ensures var after := Apply(cfg, t, e).credentials;
            && (c in after <==> c in t.credentials)
            && (c in after && after[c].revokedAt.None? ==> after[c] == t.credentials[c])
  {
  }

  lemma StepKeepsCounter(cfg: Config, t: Tables, e: Event, c: Id, s: seq<uint32>)
    requires Possible(cfg, t, e) && CounterHolds(t, c, s)
    ensures CounterHolds(Apply(cfg, t, e), c, s + CounterOf(e, c))
  {
    if CounterOf(e, c) == [] {
      OtherStepsKeepCredential(cfg, t, e, c);
      assert s + [] == s;
    } else {
      assert ZerosUpTo([], 0);
      AcceptedCounterExtends(s, CounterOf(e, c)[0]);
    }
  }

  lemma {:induction false} CountersRise(cfg: Config, log: seq<Event>, c: Id)
    requires Run(cfg, log)
    ensures CounterHolds(State(cfg, log), c, AcceptedCounters(log, c))
    decreases |log|
  {
    if log != [] {
      CountersRise(cfg, Before(log), c);
      StepKeepsCounter(cfg, State(cfg, Before(log)), Last(log), c, AcceptedCounters(Before(log), c));
    }
  }

  /** An accepted counter is never undercut by the stored one. */
  lemma {:induction false} StoredCounterReaches(cfg: Config, log: seq<Event>, i: nat)
    requires Run(cfg, log) && i < |log| && log[i].LoggedIn?
    ensures log[i].credential in State(cfg, log).credentials
    ensures State(cfg, log).credentials[log[i].credential].signCount >= log[i].counter
    decreases |log|
  {
    if i < |log| - 1 {
      StoredCounterReaches(cfg, Before(log), i);
    }
  }

  /** Of two logins of one credential the later brings a higher counter, unless the earlier brought none. */
  lemma LaterLoginCountsHigher(cfg: Config, log: seq<Event>, i: nat, j: nat)
    requires Run(cfg, log) && i < j < |log| && log[i].LoggedIn? && log[j].LoggedIn?
    requires log[i].credential == log[j].credential
    ensures log[i].counter == 0 || log[i].counter < log[j].counter
  {
    StepOfRun(cfg, log, j);
    StoredCounterReaches(cfg, log[..j], i);
  }

  lemma StepKeepsRevokedCredential(cfg: Config, t: Tables, e: Event, c: Id)
    requires Possible(cfg, t, e) && c in t.credentials && t.credentials[c].revokedAt.Some?
    ensures c in Apply(cfg, t, e).credentials && Apply(cfg, t, e).credentials[c].revokedAt.Some?
  {
  }

  lemma {:induction false} CredentialStaysRevoked(cfg: Config, log: seq<Event>, k: nat, c: Id)
    requires Run(cfg, log) && k <= |log| && Run(cfg, log[..k])
    requires c in State(cfg, log[..k]).credentials && State(cfg, log[..k]).credentials[c].revokedAt.Some?
    ensures c in State(cfg, log).credentials && State(cfg, log).credentials[c].revokedAt.Some?
    decreases |log|
  {
    if k == |log| {
      assert log[..k] == log;
    } else {
      assert Before(log)[..k] == log[..k];
      CredentialStaysRevoked(cfg, Before(log), k, c);
      StepKeepsRevokedCredential(cfg, State(cfg, Before(log)), Last(log), c);
    }
  }

  /** A credential once suspected of being cloned never logs in again. */
  lemma SuspectedCredentialNeverLogsIn(cfg: Config, log: seq<Event>, i: nat, j: nat)
    requires Run(cfg, log) && i < j < |log| && log[i].CloneSuspected? && log[j].LoggedIn?
    ensures log[i].credential != log[j].credential
  {
    StepOfRun(cfg, log, i);
    StepOfRun(cfg, log, j);
    assert log[..j][..i + 1] == log[..i + 1];
    CredentialStaysRevoked(cfg, log[..j], i + 1, log[i].credential);
  }

  // ---- wrapped keys ----

  /** The registration that created a credential, and the keys stored for it. */
  ghost predicate KeysKept(cfg: Config, t: Tables, log: seq<Event>, i: nat, c: Id) {
    && i < |log| && log[i].Registered? && log[i].reg.credentialId == c
    && Materials(KeysOf(t.keys, c)) == log[i].reg.materials
    && 0 < |log[i].reg.materials| <= cfg.maxWrappedKeys
  }

  /** Some registration in the log created the credential with these keys. */
  ghost predicate Supplied(log: seq<Event>, c: Id, keys: seq<KeyMaterial>) {
    exists i :: 0 <= i < |log| && log[i].Registered? && log[i].reg.credentialId == c && log[i].reg.materials == keys
  }

  lemma RegisteredMaterials(r: Registration)
    requires |r.keyIds| == |r.materials| && forall i :: 0 <= i < |r.materials| ==> r.materials[i].Valid()
    ensures Materials(KeyRows(r)) == r.materials
  {
  }

  /** Registering and then reading back: the keys stored for every credential are, in every later state,
      exactly the ones its registration supplied, so there is always at least one. */
  lemma {:induction false} KeysRoundTrip(cfg: Config, log: seq<Event>, c: Id)
    requires Run(cfg, log) && c in State(cfg, log).credentials
    ensures exists i :: KeysKept(cfg, State(cfg, log), log, i, c)
    decreases |log|
  {
    var t := State(cfg, Before(log));
    assert ForeignKeysHold(t) by { RunKeepsInv(cfg, Before(log)); }
    if c in t.credentials {
      KeysRoundTrip(cfg, Before(log), c);
      var i :| KeysKept(cfg, t, Before(log), i, c);
      StepKeepsKeys(cfg, t, log, i, c);
    } else {
      StepStoresKeys(cfg, t, log, c);
    }
  }

  lemma StepKeepsKeys(cfg: Config, t: Tables, log: seq<Event>, i: nat, c: Id)
    requires log != [] && ForeignKeysHold(t) && Possible(cfg, t, Last(log)) && c in t.credentials
    requires KeysKept(cfg, t, Before(log), i, c)
    ensures KeysKept(cfg, Apply(cfg, t, Last(log)), log, i, c)
  {
    StoredKeysStay(cfg, t, Last(log), c);
  }

  lemma StepStoresKeys(cfg: Config, t: Tables, log: seq<Event>, c: Id)
    requires log != [] && ForeignKeysHold(t) && Possible(cfg, t, Last(log))
    requires c !in t.credentials && c in Apply(cfg, t, Last(log)).credentials
    ensures KeysKept(cfg, Apply(cfg, t, Last(log)), log, |log| - 1, c)
  {
    RegisteredKeys(cfg, t, Last(log).reg);
    RegisteredMaterials(Last(log).reg);
  }

  lemma StoredKeysStay(cfg: Config, t: Tables, e: Event, c: Id)
    requires ForeignKeysHold(t) && Possible(cfg, t, e) && c in t.credentials
    ensures KeysOf(Apply(cfg, t, e).keys, c) == KeysOf(t.keys, c)
  {
    if e.Registered? { RegisteredKeys(cfg, t, e.reg); }
  }

  // ---- foreign keys checked immediately ----

  /** With foreign keys checked statement by statement nobody but the root is ever stored: no run contains a
      registration, hence no credential, no session and no used invite. */
  lemma {:induction false} ImmediateForeignKeysAdmitOnlyTheRoot(cfg: Config, log: seq<Event>)
    requires Run(cfg, log) && !cfg.deferForeignKeys
    ensures |State(cfg, log).users| <= 1 && State(cfg, log).credentials == map[] && State(cfg, log).tokens == map[]
    ensures forall k :: k in State(cfg, log).invites ==> !State(cfg, log).invites[k].IsUsed()
    decreases |log|
  {
    if log != [] {
      ImmediateForeignKeysAdmitOnlyTheRoot(cfg, Before(log));
    }
  }
}
