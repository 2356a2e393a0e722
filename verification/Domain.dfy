/** The domain entities: users and wrapped keys are immutable values, invites, credentials and
    refresh tokens are objects whose methods change them in place. A `...Row` is what the database stores
    of an entity. */
module Domain {
  import opened Basics

  // ---- users ----

  datatype Role = Unknown | Member | Admin

  datatype User = User(id: Id, role: Role, invitedBy: Option<Id>, createdAt: Time) {
    static function New(id: Id, role: Role, invitedBy: Id, createdAt: Time): (r: Result<User, Error>)
      ensures r.Ok? <==> id != NIL && role != Unknown && invitedBy != NIL
      ensures r.Ok? ==> r.value.id == id && r.value.role == role && r.value.invitedBy == Some(invitedBy)
      ensures r.Ok? ==> !r.value.IsRoot()
    {
      if id == NIL || role == Unknown || invitedBy == NIL then Err(InvalidArgument)
      else Ok(User(id, role, Some(invitedBy), createdAt))
    }

    static function NewRoot(id: Id, createdAt: Time): (r: Result<User, Error>)
      ensures r.Ok? <==> id != NIL
      ensures r.Ok? ==> r.value.id == id && r.value.role == Admin && r.value.invitedBy == None
    {
      if id == NIL then Err(InvalidArgument) else Ok(User(id, Admin, None, createdAt))
    }

    predicate IsRoot() { invitedBy.None? }

    function NextInviteeRole(): Role { if IsRoot() then Admin else Member }
  }

  // ---- invites ----

  datatype InviteRow = InviteRow(
    id: Id, createdBy: Id, codeHash: string, usedBy: Option<Id>, usedAt: Option<Time>,
    expiresAt: Time, createdAt: Time)
  {
    predicate IsUsed() { usedAt.Some? }
    predicate IsExpired(now: Time) { now > expiresAt }
  }

  class Invite {
    const id: Id
    const createdBy: Id
    const codeHash: string
    const expiresAt: Time
    const createdAt: Time
    var usedBy: Option<Id>
    var usedAt: Option<Time>

    constructor Reconstruct(row: InviteRow)
      ensures Row() == row
    {
      id, createdBy, codeHash := row.id, row.createdBy, row.codeHash;
      usedBy, usedAt := row.usedBy, row.usedAt;
      expiresAt, createdAt := row.expiresAt, row.createdAt;
    }

    function Row(): InviteRow
      reads this
    {
      InviteRow(id, createdBy, codeHash, usedBy, usedAt, expiresAt, createdAt)
    }

    static method New(id: Id, createdBy: Id, codeHash: string, ttl: Duration, now: Time)
      returns (r: Result<Invite, Error>)
      ensures r.Ok? <==> id != NIL && createdBy != NIL && codeHash != ""
      ensures r.Ok? ==> fresh(r.value)
                        && r.value.Row() == InviteRow(id, createdBy, codeHash, None, None, now + ttl, now)
      ensures r.Err? ==> r.error == InvalidArgument
    {
      if id == NIL || createdBy == NIL || codeHash == "" {
        return Err(InvalidArgument);
      }
      var i := new Invite.Reconstruct(InviteRow(id, createdBy, codeHash, None, None, now + ttl, now));
      return Ok(i);
    }

    /** Marks the invite used, once and only in time; a refused call changes nothing. */
    method Redeem(redeemer: Id, now: Time) returns (err: Option<Error>)
      modifies this
      ensures err == if old(usedAt).Some? then Some(InviteAlreadyUsed)
                     else if now > expiresAt then Some(InviteExpired)
                     else None
      ensures Row() == if err.None? then old(Row()).(usedBy := Some(redeemer), usedAt := Some(now)) else old(Row())
    {
      if usedAt.Some? {
        return Some(InviteAlreadyUsed);
      }
      if now > expiresAt {
        return Some(InviteExpired);
      }
      usedBy, usedAt := Some(redeemer), Some(now);
      return None;
    }
  }

  /** How many unused, unexpired invites a creator may have at once. */
  datatype Policy = Limited(maxActive: int) | Unlimited {
    function CanIssue(activeCount: int): (r: Option<Error>)
      ensures r.None? <==> Unlimited? || activeCount < maxActive
    {
      if Unlimited? then None
      else if activeCount >= maxActive then Some(TooManyActiveInvites)
      else None
    }
  }

  // ---- credentials ----

  /** Go's uint32. */
  newtype uint32 = x: int | 0 <= x < 0x1_0000_0000

  datatype CredentialRow = CredentialRow(
    id: Id, externalId: string, userId: Id, publicKey: string, signCount: uint32,
    transports: seq<string>, createdAt: Time, revokedAt: Option<Time>)

  /** `SetSignCount` keeps a new counter exactly when it is larger than the stored one or the stored
      one is zero. */
  predicate CounterAccepted(stored: uint32, reported: uint32) {
    !(reported <= stored && stored != 0)
  }

  class Credential {
    const id: Id
    const externalId: string
    const userId: Id
    const publicKey: string
    const transports: seq<string>
    const createdAt: Time
    var signCount: uint32
    var revokedAt: Option<Time>

    constructor Reconstruct(row: CredentialRow)
      ensures Row() == row
    {
      id, externalId, userId, publicKey := row.id, row.externalId, row.userId, row.publicKey;
      signCount, transports := row.signCount, row.transports;
      createdAt, revokedAt := row.createdAt, row.revokedAt;
    }

    function Row(): CredentialRow
      reads this
    {
      CredentialRow(id, externalId, userId, publicKey, signCount, transports, createdAt, revokedAt)
    }

    static method New(id: Id, externalId: string, userId: Id, publicKey: string, transports: seq<string>,
                      createdAt: Time)
      returns (r: Result<Credential, Error>)
      ensures r.Ok? <==> id != NIL && externalId != "" && userId != NIL && publicKey != ""
      ensures r.Ok? ==> fresh(r.value)
                        && r.value.Row()
                             == CredentialRow(id, externalId, userId, publicKey, 0, transports, createdAt, None)
      ensures r.Err? ==> r.error == InvalidArgument
    {
      if id == NIL || externalId == "" || userId == NIL || publicKey == "" {
        return Err(InvalidArgument);
      }
      var c := new Credential.Reconstruct(
        CredentialRow(id, externalId, userId, publicKey, 0, transports, createdAt, None));
      return Ok(c);
    }

    method Revoke(now: Time) returns (err: Option<Error>)
      modifies this
      ensures err == if old(revokedAt).Some? then Some(AlreadyRevoked) else None
      ensures Row() == if err.None? then old(Row()).(revokedAt := Some(now)) else old(Row())
    {
      if revokedAt.Some? {
        return Some(AlreadyRevoked);
      }
      revokedAt := Some(now);
      return None;
    }

    method SetSignCount(n: uint32) returns (err: Option<Error>)
      modifies this
      ensures err == if n > old(signCount) || old(signCount) == 0 then None else Some(SignCountRegression)
      ensures Row() == if err.None? then old(Row()).(signCount := n) else old(Row())
    {
      if n <= signCount && signCount != 0 {
        return Some(SignCountRegression);
      }
      signCount := n;
      return None;
    }
  }

  /** The signature-counter step of section 7.2 of Web Authentication Level 2: when either counter is
      non-zero the reported one must exceed the stored one; when both are zero nothing is checked. */
  predicate WebAuthnCounterRule(stored: uint32, reported: uint32) {
    (reported != 0 || stored != 0) ==> reported > stored
  }

  lemma CounterDecisionIsWebAuthnRule(stored: uint32, reported: uint32)
    ensures CounterAccepted(stored, reported) <==> WebAuthnCounterRule(stored, reported)
  {
  }

  // ---- wrapped keys ----

  /** `key.Scope` is a byte; 0 is the main scope, 1 the decoy scope, anything else is invalid. */
  newtype Scope = x: int | 0 <= x < 256
  const SCOPE_MAIN: Scope := 0
  const SCOPE_DECOY: Scope := 1

  /** The two values of the database enumeration. */
  datatype ScopeColumn = Main | Decoy

  function ScopeToColumn(s: Scope): ScopeColumn { if s == SCOPE_MAIN then Main else Decoy }

  function ScopeFromColumn(c: ScopeColumn): Scope { if c == Main then SCOPE_MAIN else SCOPE_DECOY }

  /** The part of a wrapped key that the client supplies and gets back. */
  datatype KeyMaterial = KeyMaterial(scope: Scope, wrappedDek: string, wrapAlgorithm: string) {
    predicate Valid() {
      (scope == SCOPE_MAIN || scope == SCOPE_DECOY) && wrappedDek != "" && wrapAlgorithm != ""
    }
  }

  datatype WrappedKey = WrappedKey(id: Id, userId: Id, credentialId: Id, material: KeyMaterial, createdAt: Time) {
    static function New(id: Id, userId: Id, credentialId: Id, material: KeyMaterial, createdAt: Time)
      : (r: Result<WrappedKey, Error>)
      ensures r.Ok? <==> id != NIL && userId != NIL && credentialId != NIL
                         && material.scope in {SCOPE_MAIN, SCOPE_DECOY}
                         && material.wrappedDek != "" && material.wrapAlgorithm != ""
      ensures r.Ok? ==> r.value.material == material && RowToKey(KeyToRow(r.value)) == r.value
    {
      if id == NIL || userId == NIL || credentialId == NIL || !material.Valid() then Err(InvalidArgument)
      else Ok(WrappedKey(id, userId, credentialId, material, createdAt))
    }
  }

  datatype WrappedKeyRow = WrappedKeyRow(
    id: Id, userId: Id, credentialId: Id, scope: ScopeColumn, wrappedDek: string, wrapAlgorithm: string,
    createdAt: Time)

  function KeyToRow(k: WrappedKey): WrappedKeyRow {
    WrappedKeyRow(k.id, k.userId, k.credentialId, ScopeToColumn(k.material.scope), k.material.wrappedDek,
                  k.material.wrapAlgorithm, k.createdAt)
  }

  function RowToKey(r: WrappedKeyRow): WrappedKey {
    WrappedKey(r.id, r.userId, r.credentialId, MaterialOf(r), r.createdAt)
  }

  function MaterialOf(r: WrappedKeyRow): KeyMaterial {
    KeyMaterial(ScopeFromColumn(r.scope), r.wrappedDek, r.wrapAlgorithm)
  }

  /** The database column has two values: a key survives being stored exactly when its scope is one of the two the
      constructor allows. */
  lemma StoredKeyReadsBack(k: WrappedKey)
    ensures RowToKey(KeyToRow(k)) == k <==> k.material.scope == SCOPE_MAIN || k.material.scope == SCOPE_DECOY
  {
    assert RowToKey(KeyToRow(k)) == k <==> ScopeFromColumn(ScopeToColumn(k.material.scope)) == k.material.scope;
  }

  /** What the columns of a stored key hold; only the scope is recoded. */
  lemma StoredKeyColumns(k: WrappedKey)
    ensures var r := KeyToRow(k);
            && r.id == k.id && r.userId == k.userId && r.credentialId == k.credentialId && r.createdAt == k.createdAt
            && r.wrappedDek == k.material.wrappedDek && r.wrapAlgorithm == k.material.wrapAlgorithm
            && (r.scope == Main <==> k.material.scope == 0)
  {
  }

  // ---- refresh tokens ----

  datatype TokenRow = TokenRow(
    id: Id, userId: Id, tokenHash: string, deviceInfo: string, ipAddress: string,
    expiresAt: Time, revokedAt: Option<Time>, createdAt: Time)
  {
    predicate IsRevoked() { revokedAt.Some? }
    predicate IsValid(now: Time) { revokedAt.None? && now < expiresAt }
  }

  class RefreshToken {
    const id: Id
    const userId: Id
    const tokenHash: string
    const deviceInfo: string
    const ipAddress: string
    const expiresAt: Time
    const createdAt: Time
    var revokedAt: Option<Time>

    constructor Reconstruct(row: TokenRow)
      ensures Row() == row
    {
      id, userId, tokenHash, deviceInfo := row.id, row.userId, row.tokenHash, row.deviceInfo;
      ipAddress, expiresAt, createdAt := row.ipAddress, row.expiresAt, row.createdAt;
      revokedAt := row.revokedAt;
    }

    function Row(): TokenRow
      reads this
    {
      TokenRow(id, userId, tokenHash, deviceInfo, ipAddress, expiresAt, revokedAt, createdAt)
    }

    /** The invalid address is the empty string. */
    static method New(id: Id, userId: Id, tokenHash: string, deviceInfo: string, ipAddress: string,
                      ttl: Duration, now: Time)
      returns (r: Result<RefreshToken, Error>)
      ensures r.Ok? <==> id != NIL && userId != NIL && tokenHash != "" && ipAddress != ""
      ensures r.Ok? ==> fresh(r.value)
                        && r.value.Row() == TokenRow(id, userId, tokenHash, deviceInfo, ipAddress, now + ttl, None, now)
      ensures r.Err? ==> r.error == InvalidArgument
    {
      if id == NIL || userId == NIL || tokenHash == "" || ipAddress == "" {
        return Err(InvalidArgument);
      }
      var t := new RefreshToken.Reconstruct(
        TokenRow(id, userId, tokenHash, deviceInfo, ipAddress, now + ttl, None, now));
      return Ok(t);
    }

    method Revoke(now: Time) returns (err: Option<Error>)
      modifies this
      ensures err == if old(revokedAt).Some? then Some(AlreadyRevoked) else None
      ensures Row() == if err.None? then old(Row()).(revokedAt := Some(now)) else old(Row())
    {
      if revokedAt.Some? {
        return Some(AlreadyRevoked);
      }
      revokedAt := Some(now);
      return None;
    }

    /** A successor for the same user, device and address. It inherits the expiry: rotating never
        lengthens a lineage's life. */
    method Rotate(newId: Id, newHash: string, now: Time) returns (r: Result<RefreshToken, Error>)
      ensures r.Ok? <==> newId != NIL && newHash != ""
      ensures r.Ok? ==> fresh(r.value)
                        && r.value.Row()
                             == Row().(id := newId, tokenHash := newHash, revokedAt := None, createdAt := now)
      ensures r.Err? ==> r.error == InvalidArgument
    {
      if newId == NIL || newHash == "" {
        return Err(InvalidArgument);
      }
      var t := new RefreshToken.Reconstruct(
        TokenRow(newId, userId, newHash, deviceInfo, ipAddress, expiresAt, None, now));
      return Ok(t);
    }
  }
}
